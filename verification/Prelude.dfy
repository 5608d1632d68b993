/** Small shared vocabulary: optional values, results, stored times, sums over maps and strings. */
module Prelude {

  datatype Option<+T> = None | Some(value: T)

  datatype Result<+T, +E> = Ok(value: T) | Err(error: E)

  type byte = b: int | 0 <= b < 256

  // ---------------------------------------------------------------- time

  /** Instants are counted in nanoseconds, as the clock of the program gives them. */
  const SECOND: int := 1_000_000_000

  /** The whole second a stored time keeps: RFC 3339 without a fraction drops the rest. */
  function Seconds(t: int): int {
    t / SECOND
  }

  /** Storing keeps order, and moving by whole seconds commutes with storing. */
  lemma SecondsLaws(t: int, u: int, k: int)
    ensures t <= u ==> Seconds(t) <= Seconds(u)
    ensures Seconds(t + k * SECOND) == Seconds(t) + k
    ensures Seconds(t) * SECOND <= t < (Seconds(t) + 1) * SECOND
  {
  }

  // ---------------------------------------------------------------- sums over maps

  /** The sum of the values of a map. */
  ghost function Total<K>(m: map<K, nat>): nat
    decreases |m|
  {
    if m == map[] then 0 else
      var k :| k in m;
      m[k] + Total(m - {k})
  }

  /** Any key may be taken out first. */
  lemma {:induction false} TotalRemove<K>(m: map<K, nat>, k: K)
    requires k in m
    ensures Total(m) == m[k] + Total(m - {k})
    decreases |m|
  {
    var c :| c in m && Total(m) == m[c] + Total(m - {c});
    if c != k {
      TotalRemove(m - {c}, k);
      TotalRemove(m - {k}, c);
      assert m - {c} - {k} == m - {k} - {c};
    }
  }

  /** Writing one key changes the sum by the difference at that key. */
  lemma TotalUpdate<K>(m: map<K, nat>, k: K, v: nat)
    ensures Total(m[k := v]) == Total(m) + v - (if k in m then m[k] else 0)
  {
    TotalRemove(m[k := v], k);
    if k in m {
      TotalRemove(m, k);
      assert m[k := v] - {k} == m - {k};
    } else {
      assert m[k := v] - {k} == m;
    }
  }

  /** A map that is pointwise no larger, on no more keys, sums to no more. */
  lemma {:induction false} TotalMonotone<K>(a: map<K, nat>, b: map<K, nat>)
    requires a.Keys <= b.Keys
    requires forall k :: k in a ==> a[k] <= b[k]
    ensures Total(a) <= Total(b)
    decreases |a|
  {
    if a != map[] {
      var k :| k in a;
      TotalRemove(a, k);
      TotalRemove(b, k);
      TotalMonotone(a - {k}, b - {k});
    }
  }

  // ---------------------------------------------------------------- strings

  /** The first place of a character, or the length of the string. */
  function IndexOf(s: string, ch: char): (i: nat)
    ensures i <= |s| && (i < |s| ==> s[i] == ch) && forall k :: 0 <= k < i ==> s[k] != ch
  {
    if s == "" || s[0] == ch then 0
    else
      var k := IndexOf(s[1..], ch);
      assert forall j :: 1 <= j < |s| ==> s[j] == s[1..][j - 1];
      1 + k
  }

  lemma IndexIs(s: string, ch: char, i: nat)
    requires i < |s| && s[i] == ch && forall k :: 0 <= k < i ==> s[k] != ch
    ensures IndexOf(s, ch) == i
  {
  }

  predicate Free(s: string, ch: char) {
    forall i :: 0 <= i < |s| ==> s[i] != ch
  }
}
