/**
 * The bounded message history: a batch is appended at the tail, then the
 * oldest entries are removed from the head until the buffer is no longer
 * than the history size. The raw and the tokenized buffers both follow it.
 */
module History {

  function Min(a: int, b: int): int
  {
    if a <= b then a else b
  }

  /** `s` ends with `t`. */
  ghost predicate IsSuffix<T>(t: seq<T>, s: seq<T>)
  {
    |t| <= |s| && t == s[|s| - |t|..]
  }

  /**
   * The trimming loop: while the buffer is longer than `cap`, drop its first
   * element. What remains is the newest `min(cap, |buf|)` entries.
   */
  function Trim<T>(buf: seq<T>, cap: nat): (r: seq<T>)
    ensures |r| == Min(cap, |buf|)
    ensures IsSuffix(r, buf)
    decreases |buf|
  {
    if |buf| > cap then Trim(buf[1..], cap) else buf
  }

  /** Receiving one batch: append every element in arrival order, then trim. */
  function Receive<T>(buf: seq<T>, batch: seq<T>, cap: nat): (r: seq<T>)
    ensures |r| <= cap
    ensures |r| == Min(cap, |buf| + |batch|)
    ensures IsSuffix(r, buf + batch)
  {
    Trim(buf + batch, cap)
  }

  /** Nothing is evicted while the buffer and the batch fit under the cap. */
  lemma ReceiveWithinCap<T>(buf: seq<T>, batch: seq<T>, cap: nat)
    requires |buf| + |batch| <= cap
    ensures Receive(buf, batch, cap) == buf + batch
  {
  }

  /**
   * Only head elements are evicted: when the batch fits under the cap, the
   * new history is the newest `kept` entries of the old one followed by the
   * whole batch.
   */
  lemma ReceiveEvictsFromHead<T>(buf: seq<T>, batch: seq<T>, cap: nat)
    requires |batch| <= cap
    ensures var kept := Min(cap, |buf| + |batch|) - |batch|;
      && 0 <= kept <= |buf|
      && Receive(buf, batch, cap) == buf[|buf| - kept..] + batch
  {
    var r := Receive(buf, batch, cap);
    var j := |buf| + |batch| - |r|;
    assert (buf + batch)[j..] == buf[j..] + batch;
  }

  /** The newest `cap` elements of `s`, as a closed form. */
  function Newest<T>(s: seq<T>, cap: nat): seq<T>
  {
    s[|s| - Min(cap, |s|)..]
  }

  lemma ReceiveIsNewest<T>(buf: seq<T>, batch: seq<T>, cap: nat)
    ensures Receive(buf, batch, cap) == Newest(buf + batch, cap)
  {
  }

  /** A suffix of `s` followed by `b` is a suffix of `s + b`. */
  lemma SuffixAppend<T>(m: seq<T>, s: seq<T>, b: seq<T>)
    requires IsSuffix(m, s)
    ensures IsSuffix(m + b, s + b)
  {
    var k := |s| - |m|;
    assert (s + b)[k..] == s[k..] + b;
  }

  /** Two suffixes of one sequence with the same length are equal. */
  lemma SuffixUnique<T>(x: seq<T>, y: seq<T>, s: seq<T>)
    requires IsSuffix(x, s) && IsSuffix(y, s) && |x| == |y|
    ensures x == y
  {
  }

  /** A suffix of a suffix is a suffix. */
  lemma SuffixTransitive<T>(t: seq<T>, u: seq<T>, s: seq<T>)
    requires IsSuffix(t, u) && IsSuffix(u, s)
    ensures IsSuffix(t, s)
  {
    assert s[|s| - |u|..][|u| - |t|..] == s[|s| - |t|..];
  }

  /**
   * Splitting a stream into batches does not matter: receiving `a` and then
   * `b` leaves the same history as receiving `a + b` at once.
   */
  lemma {:induction false} ReceiveBatching<T>(buf: seq<T>, a: seq<T>, b: seq<T>, cap: nat)
    ensures Receive(Receive(buf, a, cap), b, cap) == Receive(buf, a + b, cap)
  {
    var m := Receive(buf, a, cap);
    var whole := buf + a + b;
    assert buf + (a + b) == whole;
    var r1 := Receive(m, b, cap);
    var r2 := Receive(buf, a + b, cap);
    SuffixAppend(m, buf + a, b);
    SuffixTransitive(r1, m + b, whole);
    SuffixUnique(r1, r2, whole);
  }

  /** The history size keeps the last three of A, B, C, D, one batch or two. */
  lemma CapThreeExample()
    ensures Receive("", "ABCD", 3) == "BCD"
    ensures Receive(Receive("", "AB", 3), "CD", 3) == "BCD"
  {
    assert "" + "ABCD" == "ABCD";
    assert "ABCD"[1..] == "BCD";
    ReceiveBatching("", "AB", "CD", 3);
    assert "AB" + "CD" == "ABCD";
  }

  /** The outcome of the trimming loop when the cap may be any integer. */
  datatype Trimmed<T> = Trimmed(buf: seq<T>) | NoSuchElement

  /**
   * The trimming loop over the source's signed history size: with a negative
   * size the loop empties the buffer and then asks for the first element of
   * an empty list, which throws.
   */
  function TrimAsWritten<T>(buf: seq<T>, cap: int): (r: Trimmed<T>)
    ensures cap >= 0 ==> r == Trimmed(Trim(buf, cap))
    ensures cap < 0 ==> r == NoSuchElement
    decreases |buf|
  {
    if |buf| > cap then
      if |buf| == 0 then NoSuchElement else TrimAsWritten(buf[1..], cap)
    else
      Trimmed(buf)
  }

  /** Any negative history size makes the next batch throw, even an empty one. */
  lemma NegativeCapThrows<T>(buf: seq<T>, batch: seq<T>, cap: int)
    requires cap < 0
    ensures TrimAsWritten(buf + batch, cap) == NoSuchElement
  {
  }
}
