/**
 * The location-feed client (src/gps.rs). `Host` and `Phone` differ only in
 * how they launch the feed daemon; their connect loop and their read loop are
 * the same code, modelled once here as `FeedClient`.
 *
 * A line of the feed reaches the model already parsed by serde_json; the
 * model keeps of it only what `run` looks at.
 */
module Gps {
  import opened Wrappers
  import opened GpsPosition

  type U64 = x: int | 0 <= x < 0x1_0000_0000_0000_0000

  // ---------------------------------------------------------------------
  // Parsed JSON, as far as the read loop looks at it

  /** A JSON number with serde_json's two views of it: `as_u64` and `as_f64`. */
  datatype Number = Number(asU64: Option<U64>, asF64: F64)

  /** A JSON value; the contents of arrays and nested objects are never inspected. */
  datatype Value = Null | Bool(b: bool) | Num(n: Number) | Str(s: string) | Array | Object

  /** A whole line: a JSON object, or some other JSON value. */
  datatype Document = Obj(fields: map<string, Value>) | NotObject(v: Value)

  /** What reading and parsing one line gives: a document, or text that is not JSON. */
  datatype Line = Parsed(doc: Document) | Unparsable

  /** serde_json's `value[key]`: `Null` when the key is absent or the value is not an object. */
  function Index(d: Document, key: string): (v: Value)
    ensures d.Obj? && key in d.fields ==> v == d.fields[key]
    ensures !(d.Obj? && key in d.fields) ==> v == Null
  {
    if d.Obj? && key in d.fields then d.fields[key] else Null
  }

  function AsU64(v: Value): Option<U64> {
    if v.Num? then v.n.asU64 else None
  }

  function AsStr(v: Value): Option<string> {
    if v.Str? then Some(v.s) else None
  }

  function AsF64(v: Value): Option<F64> {
    if v.Num? then Some(v.n.asF64) else None
  }

  /** The conditions that end the feed thread with a panic. */
  datatype Fatal =
    | InvalidJson      // `expect("failed parsing gps to json")`
    | ModeNotUnsigned  // `data["mode"].as_u64().unwrap()` on a TPV message
    | BackoffOverflow  // `2_u64.pow(retries)` overflows once `retries` reaches 64

  /** `&data["class"] == "TPV"`: the class is the string `TPV`, nothing else. */
  predicate IsTpv(d: Document)
    ensures IsTpv(d) <==> d.Obj? && "class" in d.fields && d.fields["class"] == Str("TPV")
  {
    Index(d, "class") == Str("TPV")
  }

  /** The fix a TPV message carries, absent or ill-typed fields defaulted. */
  function FixOf(d: Document): (p: Position)
    ensures p.time == (if Index(d, "time").Str? then Index(d, "time").s else "")
    ensures p.lat == (if Index(d, "lat").Num? then Index(d, "lat").n.asF64 else PositiveZero)
    ensures p.lon == (if Index(d, "lon").Num? then Index(d, "lon").n.asF64 else PositiveZero)
  {
    New(AsStr(Index(d, "time")).UnwrapOr(""),
        AsF64(Index(d, "lat")).UnwrapOr(PositiveZero),
        AsF64(Index(d, "lon")).UnwrapOr(PositiveZero))
  }

  /**
   * One iteration of the read loop: the fix to store (`Some`), nothing to
   * store (`None`), or the panic that ends the loop.
   */
  function Decide(line: Line): (r: Result<Option<Position>, Fatal>)
    ensures r == Err(InvalidJson) <==> line.Unparsable?
    ensures r == Err(ModeNotUnsigned) <==>
              line.Parsed? && IsTpv(line.doc) && AsU64(Index(line.doc, "mode")).None?
    ensures r.Ok? && r.value.Some? <==>
              line.Parsed? && IsTpv(line.doc) && AsU64(Index(line.doc, "mode")) in {Some(2), Some(3)}
    ensures r.Ok? && r.value.Some? ==> r.value.value == FixOf(line.doc)
    ensures line.Parsed? && !IsTpv(line.doc) ==> r == Ok(None)
    ensures r.Err? <==>
              line.Unparsable? || (line.Parsed? && IsTpv(line.doc) && AsU64(Index(line.doc, "mode")).None?)
    ensures (line.Parsed? && IsTpv(line.doc) && AsU64(Index(line.doc, "mode")).Some? &&
             AsU64(Index(line.doc, "mode")).value !in {2, 3}) ==> r == Ok(None)
  {
    match line
    case Unparsable => Err(InvalidJson)
    case Parsed(doc) =>
      if !IsTpv(doc) then Ok(None)
      else
        match AsU64(Index(doc, "mode"))
        case None => Err(ModeNotUnsigned)
        case Some(mode) => if mode == 2 || mode == 3 then Ok(Some(FixOf(doc))) else Ok(None)
  }

  // ---------------------------------------------------------------------
  // The read loop, as a function of the lines read

  /** Where a run of the read loop leaves the store, and the panic that ended it, if any. */
  datatype ReadResult = ReadResult(position: Position, fatal: Option<Fatal>)

  /** The read loop over `lines`, starting from the stored fix `p`; it stops at the first panic. */
  function Replay(p: Position, lines: seq<Line>): (r: ReadResult)
    ensures r.position == p || exists i :: 0 <= i < |lines| && FixAt(lines, i) && r.position == Decide(lines[i]).value.value
  {
    if |lines| == 0 then ReadResult(p, None)
    else
      var prev := Replay(p, lines[..|lines| - 1]);
      assert forall i :: 0 <= i < |lines| - 1 ==> lines[..|lines| - 1][i] == lines[i];
      if prev.fatal.Some? then prev
      else
        match Decide(lines[|lines| - 1])
        case Err(e) => ReadResult(prev.position, Some(e))
        case Ok(fix) => ReadResult(fix.UnwrapOr(prev.position), None)
  }

  predicate NoFatal(lines: seq<Line>) {
    forall i :: 0 <= i < |lines| ==> Decide(lines[i]).Ok?
  }

  predicate FixAt(lines: seq<Line>, i: int)
    requires 0 <= i < |lines|
  {
    Decide(lines[i]).Ok? && Decide(lines[i]).value.Some?
  }

  /** Once a panic has happened, later lines are never read. */
  lemma {:induction false} ReplayHaltsAtFatal(p: Position, lines: seq<Line>, n: nat)
    requires n <= |lines| && Replay(p, lines[..n]).fatal.Some?
    ensures Replay(p, lines) == Replay(p, lines[..n])
    decreases |lines|
  {
    if |lines| > n {
      var init := lines[..|lines| - 1];
      assert init[..n] == lines[..n];
      ReplayHaltsAtFatal(p, init, n);
    } else {
      assert lines[..n] == lines;
    }
  }

  /** Without a panic, the store holds the fix of the last line that carried one. */
  lemma {:induction false} ReplayKeepsLatestFix(p: Position, lines: seq<Line>, k: nat)
    requires NoFatal(lines) && k < |lines| && FixAt(lines, k)
    requires forall j :: k < j < |lines| ==> !FixAt(lines, j)
    ensures Replay(p, lines) == ReadResult(Decide(lines[k]).value.value, None)
    decreases |lines|
  {
    var init := lines[..|lines| - 1];
    if k < |lines| - 1 {
      assert forall j :: 0 <= j < |init| ==> init[j] == lines[j];
      forall j | k < j < |init| ensures !FixAt(init, j) {
        assert !FixAt(lines, j);
      }
      ReplayKeepsLatestFix(p, init, k);
      assert !FixAt(lines, |lines| - 1);
    } else {
      ReplayNeverFails(p, init);
    }
  }

  /** Lines without a fix and without a panic leave the store as it was. */
  lemma {:induction false} ReplayWithoutFix(p: Position, lines: seq<Line>)
    requires NoFatal(lines)
    requires forall j :: 0 <= j < |lines| ==> !FixAt(lines, j)
    ensures Replay(p, lines) == ReadResult(p, None)
    decreases |lines|
  {
    if |lines| > 0 {
      var init := lines[..|lines| - 1];
      assert forall j :: 0 <= j < |init| ==> init[j] == lines[j];
      forall j | 0 <= j < |init| ensures !FixAt(init, j) {
        assert !FixAt(lines, j);
      }
      ReplayWithoutFix(p, init);
      assert !FixAt(lines, |lines| - 1);
    }
  }

  /** Lines without a panic never end the loop. */
  lemma {:induction false} ReplayNeverFails(p: Position, lines: seq<Line>)
    requires NoFatal(lines)
    ensures Replay(p, lines).fatal.None?
    decreases |lines|
  {
    if |lines| > 0 {
      var init := lines[..|lines| - 1];
      assert forall j :: 0 <= j < |init| ==> init[j] == lines[j];
      ReplayNeverFails(p, init);
    }
  }

  /** The first panic ends the loop with that panic; the store keeps what the lines before it left. */
  lemma ReplayStopsAtFirstFatal(p: Position, lines: seq<Line>, k: nat)
    requires k < |lines| && Decide(lines[k]).Err? && NoFatal(lines[..k])
    ensures Replay(p, lines) == ReadResult(Replay(p, lines[..k]).position, Some(Decide(lines[k]).error))
  {
    ReplayNeverFails(p, lines[..k]);
    assert lines[..k + 1][..k] == lines[..k];
    ReplayHaltsAtFatal(p, lines, k + 1);
  }

  // ---------------------------------------------------------------------
  // Binary exponential backoff

  /** `2_u64.pow(retries)` overflows from this exponent on. */
  const OverflowExponent: nat := 64

  function Pow2(n: nat): (r: nat)
    ensures r >= 1
  {
    if n == 0 then 1 else 2 * Pow2(n - 1)
  }

  /** The sleeps, in milliseconds, before the first `n` retries: 1, 2, 4, ... */
  function BackoffDelays(n: nat): (d: seq<nat>)
    ensures |d| == n
  {
    seq(n, j requires 0 <= j => Pow2(j))
  }

  /** Each delay doubles the one before, starting at 1 ms. */
  lemma BackoffDoubles(n: nat)
    ensures n > 0 ==> BackoffDelays(n)[0] == 1
    ensures forall j :: 0 < j < n ==> BackoffDelays(n)[j] == 2 * BackoffDelays(n)[j - 1]
  {}

  /** The first five delays. */
  lemma FirstFiveDelays()
    ensures BackoffDelays(5) == [1, 2, 4, 8, 16]
  {
    assert Pow2(1) == 2 && Pow2(2) == 4 && Pow2(3) == 8 && Pow2(4) == 16;
  }

  /** The number of failed connection attempts before the first success (all of them if none succeeds). */
  function LeadingFailures(attempts: seq<bool>): (n: nat)
    ensures n <= |attempts|
    ensures forall j :: 0 <= j < n ==> !attempts[j]
    ensures n < |attempts| ==> attempts[n]
  {
    if |attempts| == 0 || attempts[0] then 0 else 1 + LeadingFailures(attempts[1..])
  }

  /** How the connect loop ended, within the attempts the model was given. */
  datatype ConnectOutcome =
    | Connected(retries: nat)  // connected after `retries` failures
    | StillRetrying            // every given attempt failed; the source would go on retrying
    | Halted(reason: Fatal)    // the backoff computation panicked

  /**
   * The connect loop of `run`: `attempts[i]` says whether the i-th connect
   * succeeds. Each failure sleeps `2^retries` ms, then increments `retries`.
   */
  method Connect(attempts: seq<bool>) returns (r: ConnectOutcome, sleeps: seq<nat>)
    ensures var f := LeadingFailures(attempts);
      && sleeps == BackoffDelays(if f < OverflowExponent then f else OverflowExponent)
      && (f < |attempts| && f <= OverflowExponent ==> r == Connected(f))
      && (f == |attempts| && f <= OverflowExponent ==> r == StillRetrying)
      && (f > OverflowExponent ==> r == Halted(BackoffOverflow))
  {
    var retries: nat := 0;
    sleeps := [];
    var i := 0;
    while i < |attempts|
      invariant i == retries <= LeadingFailures(attempts)
      invariant retries <= OverflowExponent
      invariant sleeps == BackoffDelays(retries)
    {
      if attempts[i] {
        return Connected(retries), sleeps;
      }
      if retries >= OverflowExponent {
        return Halted(BackoffOverflow), sleeps;
      }
      sleeps := sleeps + [Pow2(retries)];
      retries := retries + 1;
      i := i + 1;
    }
    r := StillRetrying;
  }

  // ---------------------------------------------------------------------
  // The client

  /** One feed client; `position` is the store that `Arc<Mutex<Position>>` guards in the source. */
  class FeedClient {
    var position: Position

    /** `Host::new` / `Phone::new`: the store starts at the default fix. */
    constructor()
      ensures position == Default()
    {
      position := Default();
    }

    /** The read loop over `lines`; it returns the panic that ended it, if any. */
    method ReadLoop(lines: seq<Line>) returns (stop: Option<Fatal>)
      modifies this
      ensures Replay(old(position), lines) == ReadResult(position, stop)
    {
      var i := 0;
      while i < |lines|
        invariant 0 <= i <= |lines|
        invariant Replay(old(position), lines[..i]) == ReadResult(position, None)
      {
        assert lines[..i + 1][..i] == lines[..i];
        match Decide(lines[i])
        case Err(e) =>
          ReplayHaltsAtFatal(old(position), lines, i + 1);
          return Some(e);
        case Ok(fix) =>
          if fix.Some? {
            position := fix.value;
          }
        i := i + 1;
      }
      assert lines[..i] == lines;
      stop := None;
    }

    /** `run`: connect with backoff, then read until a panic. */
    method Run(attempts: seq<bool>, lines: seq<Line>)
      returns (connect: ConnectOutcome, sleeps: seq<nat>, stop: Option<Fatal>)
      modifies this
      ensures var f := LeadingFailures(attempts);
        && sleeps == BackoffDelays(if f < OverflowExponent then f else OverflowExponent)
        && (f < |attempts| && f <= OverflowExponent ==> connect == Connected(f))
        && (f == |attempts| && f <= OverflowExponent ==> connect == StillRetrying)
        && (f > OverflowExponent ==> connect == Halted(BackoffOverflow))
      ensures connect.Connected? ==> Replay(old(position), lines) == ReadResult(position, stop)
      ensures !connect.Connected? ==> position == old(position) && stop.None?
    {
      connect, sleeps := Connect(attempts);
      stop := None;
      if connect.Connected? {
        stop := ReadLoop(lines);
      }
    }
  }
}
