/** The 16-byte keys of the index buckets: how they are written, read back and ordered. */
module IndexKey {
  import opened Telemetry
  import opened Broker
  import opened Transactions
  import opened Histories

  type Byte = b: int | 0 <= b < 256

  const TWO_63: int := 0x8000_0000_0000_0000
  const TWO_64: int := 0x1_0000_0000_0000_0000

  /** The `n` low bytes of `x`, the most significant first. */
  function BigEndian(x: nat, n: nat): (b: seq<Byte>)
    ensures |b| == n
  {
    if n == 0 then [] else BigEndian(x / 256, n - 1) + [x % 256]
  }

  /** The number some bytes stand for. */
  function Value(b: seq<Byte>): nat {
    if b == [] then 0 else Value(b[..|b| - 1]) * 256 + b[|b| - 1]
  }

  /** `x` has at most `n` bytes. */
  predicate HasBytes(x: nat, n: nat) {
    if n == 0 then x == 0 else HasBytes(x / 256, n - 1)
  }

  lemma EightBytes(x: nat)
    requires x < TWO_64
    ensures HasBytes(x, 8)
  {
    assert HasBytes(x / 256 / 256 / 256 / 256 / 256 / 256, 2);
    assert HasBytes(x / 256 / 256 / 256 / 256, 4);
    assert HasBytes(x / 256 / 256, 6);
  }

  /** Reading back what was written. */
  lemma {:induction false} ValueOfBigEndian(x: nat, n: nat)
    requires HasBytes(x, n)
    ensures Value(BigEndian(x, n)) == x
  {
    if n > 0 {
      ValueOfBigEndian(x / 256, n - 1);
      assert BigEndian(x, n)[..n - 1] == BigEndian(x / 256, n - 1);
    }
  }

  /** Equally long byte strings with one value are one string. */
  lemma {:induction false} ValueInjective(a: seq<Byte>, b: seq<Byte>)
    requires |a| == |b| && Value(a) == Value(b)
    ensures a == b
  {
    if a != [] {
      var n := |a| - 1;
      ValueInjective(a[..n], b[..n]);
      assert a == a[..n] + [a[n]] && b == b[..n] + [b[n]];
    }
  }

  /** How an ordered bucket compares keys. */
  predicate LexLess(a: seq<Byte>, b: seq<Byte>) {
    b != [] && (a == [] || a[0] < b[0] || (a[0] == b[0] && LexLess(a[1..], b[1..])))
  }

  lemma {:induction false} LexOfConcat(a: seq<Byte>, b: seq<Byte>, c: seq<Byte>, d: seq<Byte>)
    requires |a| == |b|
    ensures LexLess(a + c, b + d) <==> LexLess(a, b) || (a == b && LexLess(c, d))
  {
    if a == [] {
      assert a + c == c && b + d == d;
    } else {
      assert (a + c)[1..] == a[1..] + c && (b + d)[1..] == b[1..] + d;
      LexOfConcat(a[1..], b[1..], c, d);
      assert a == b <==> a[0] == b[0] && a[1..] == b[1..];
    }
  }

  /** Byte order is the order of the numbers. */
  lemma {:induction false} LexIsNumeric(a: seq<Byte>, b: seq<Byte>)
    requires |a| == |b|
    ensures LexLess(a, b) <==> Value(a) < Value(b)
  {
    if a != [] {
      var n := |a| - 1;
      LexIsNumeric(a[..n], b[..n]);
      LexOfConcat(a[..n], b[..n], [a[n]], [b[n]]);
      assert a == a[..n] + [a[n]] && b == b[..n] + [b[n]];
      assert LexLess([a[n]], [b[n]]) <==> a[n] < b[n];
      if Value(a[..n]) == Value(b[..n]) {
        ValueInjective(a[..n], b[..n]);
      }
    }
  }

  // ---------------------------------------------------------------- keys

  predicate Int64(x: int) { -TWO_63 <= x < TWO_63 }
  predicate Uint64(x: int) { 0 <= x < TWO_64 }

  /** A signed number reinterpreted as unsigned, and back. */
  function AsUnsigned(x: int): nat
    requires Int64(x)
  {
    if x < 0 then x + TWO_64 else x
  }

  function AsSigned(x: nat): int
    requires Uint64(x)
  {
    if x >= TWO_63 then x - TWO_64 else x
  }

  function KeyBytes(k: Key): seq<Byte>
    requires Int64(k.due)
  {
    BigEndian(AsUnsigned(k.due), 8) + BigEndian(k.sequence, 8)
  }

  /** The due time read back from a key. */
  function DueOf(b: seq<Byte>): int
    requires |b| >= 8 && Uint64(Value(b[..8]))
  {
    AsSigned(Value(b[..8]))
  }

  lemma WordValue(x: nat)
    requires Uint64(x)
    ensures Value(BigEndian(x, 8)) == x
  {
    EightBytes(x);
    ValueOfBigEndian(x, 8);
  }

  /** A key decodes to its due time and its sequence number. */
  lemma KeyRoundTrip(k: Key)
    requires Int64(k.due) && Uint64(k.sequence)
    ensures |KeyBytes(k)| == 16 && Uint64(Value(KeyBytes(k)[..8]))
    ensures DueOf(KeyBytes(k)) == k.due && Value(KeyBytes(k)[8..]) == k.sequence
  {
    WordValue(AsUnsigned(k.due));
    WordValue(k.sequence);
    assert KeyBytes(k)[..8] == BigEndian(AsUnsigned(k.due), 8);
    assert KeyBytes(k)[8..] == BigEndian(k.sequence, 8);
  }

  lemma WordsEqual(x: nat, y: nat)
    requires Uint64(x) && Uint64(y)
    ensures BigEndian(x, 8) == BigEndian(y, 8) <==> x == y
  {
    WordValue(x);
    WordValue(y);
  }

  /** The bucket's byte order is (due, sequence) order exactly when both due times have the
      same sign; otherwise it is the reverse. */
  lemma KeyOrder(a: Key, b: Key)
    requires Int64(a.due) && Int64(b.due) && Uint64(a.sequence) && Uint64(b.sequence)
    ensures (LexLess(KeyBytes(a), KeyBytes(b)) <==> Before(a, b)) <==> (a.due < 0 <==> b.due < 0)
  {
    var x, y := AsUnsigned(a.due), AsUnsigned(b.due);
    LexOfConcat(BigEndian(x, 8), BigEndian(y, 8), BigEndian(a.sequence, 8), BigEndian(b.sequence, 8));
    LexIsNumeric(BigEndian(x, 8), BigEndian(y, 8));
    LexIsNumeric(BigEndian(a.sequence, 8), BigEndian(b.sequence, 8));
    WordsEqual(x, y);
    WordValue(x);
    WordValue(y);
    WordValue(a.sequence);
    WordValue(b.sequence);
  }

  // ---------------------------------------------------------------- no due time overflows

  const YEAR: int := 365 * 24 * HOUR

  /** A clock reading that leaves room for the longest validated duration. */
  predicate InRange(now: int) {
    0 <= now <= TWO_63 - 1 - YEAR
  }

  ghost predicate Fits(records: Records) {
    forall id :: id in records ==> 0 <= records[id].due < TWO_63
  }

  lemma {:induction false} ExpiryFits(s: State, h: History, now: int)
    requires Lawful(s, h) && Fits(s.records) && 0 <= now < TWO_63
    requires forall i :: 0 <= i < |h| ==> h[i].now == now && (h[i].change.Release? || h[i].change.Forget?)
    ensures Fits(Replay(s, h).records)
  {
    if h != [] {
      ExpiryFits(s, h[..|h| - 1], now);
    }
  }

  lemma StepFits(s: State, step: Step)
    requires Inv(s) && Possible(step) && Fits(s.records) && InRange(step.now)
    ensures Fits(Replay(s, Respond(s, step).journal).records)
  {
    hide Inv, Respond, Fits;
    var journal := Respond(s, step).journal;
    var expired := JournalShape(s, step);
    if journal == expired {
      ExpiryFits(s, expired, step.now);
    } else {
      assert journal[..|journal| - 1] == expired;
      ExpiryFits(s, expired, step.now);
      var own := journal[|expired|].change;
      NackIsValid(s, step);
      OwnFits(Replay(s, expired), step, Respond(s, step).reply, own);
    }
  }

  lemma NackIsValid(s: State, step: Step)
    requires Inv(s) && Possible(step)
    ensures step.call.NackCall? && Respond(s, step).reply == Done ==> ValidNack(step.call.nack)
  {
    hide Inv, Tally, Lawful, Replay, Commit;
  }

  lemma OwnFits(s: State, step: Step, reply: Reply, own: Change)
    requires Possible(step) && Enabled(s, own, step.now) && OwnChange(step, reply, own)
    requires step.call.NackCall? ==> ValidNack(step.call.nack)
    requires Fits(s.records) && InRange(step.now)
    ensures Fits(Commit(s, own, step.now).records)
  {
  }

  /** Under validated options, and clocks at least a year short of the last nanosecond, no
      due time ever overflows: every record's due time is a non-negative 64-bit integer. */
  lemma {:induction false} DuesFit(s: State, run: seq<Step>)
    requires Inv(s) && PossibleRun(run) && Fits(s.records)
    requires forall i :: 0 <= i < |run| ==> InRange(run[i].now)
    ensures Fits(After(s, run).records)
  {
    hide Inv, Respond, Possible, After, Replay, Lawful, HistoryOf, Fits;
    if run == [] {
      AfterNothing(s);
    } else {
      var n := |run| - 1;
      DuesFit(s, run[..n]);
      AfterStep(s, run, n);
      assert run[..n + 1] == run;
      StepFits(After(s, run[..n]), run[n]);
    }
  }

  /** In every reachable state the byte order of the index keys is the order the broker's
      choices rely on, and a key decodes to its record's due time. */
  lemma {:induction false} ReachableKeysFaithful(run: seq<Step>, i: string, j: string)
    requires PossibleRun(run) && (forall k :: 0 <= k < |run| ==> InRange(run[k].now))
    requires Inv(EMPTY) && i in After(EMPTY, run).records && j in After(EMPTY, run).records
    requires After(EMPTY, run).sequence < TWO_64
    ensures var records := After(EMPTY, run).records;
            Faithful(KeyOf(records[i]), KeyOf(records[j]))
  {
    hide Inv, After, Faithful;
    assert Fits(EMPTY.records);
    DuesFit(EMPTY, run);
    FitsFaithful(After(EMPTY, run), i, j);
  }

  predicate Faithful(a: Key, b: Key) {
    && Int64(a.due) && Int64(b.due)
    && (LexLess(KeyBytes(a), KeyBytes(b)) <==> Before(a, b))
    && Uint64(Value(KeyBytes(a)[..8])) && DueOf(KeyBytes(a)) == a.due
  }

  lemma FitsFaithful(s: State, i: string, j: string)
    requires Inv(s) && Fits(s.records) && s.sequence < TWO_64 && i in s.records && j in s.records
    ensures Faithful(KeyOf(s.records[i]), KeyOf(s.records[j]))
  {
    assert Sequenced(s.records, s.sequence);
    hide Inv, Before, LexLess, KeyBytes;
    KeyOrder(KeyOf(s.records[i]), KeyOf(s.records[j]));
    KeyRoundTrip(KeyOf(s.records[i]));
  }
}
