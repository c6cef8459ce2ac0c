/** `mountctl.umount`: retry a busy target, and only that, with doubling pauses. */
module Mountctl {
  import opened Basics

  /** What one run of `umount` comes back with. */
  datatype Reply = Reply(code: int, stderr: string)

  function LowerChar(c: char): char {
    if 'A' <= c <= 'Z' then c - 'A' + 'a' else c
  }

  predicate BusyAt(s: string, i: int) {
    0 <= i <= |s| - 4
    && LowerChar(s[i]) == 'b' && LowerChar(s[i + 1]) == 'u' && LowerChar(s[i + 2]) == 's' && LowerChar(s[i + 3]) == 'y'
  }

  /** `"busy" in stderr.lower()`, on ASCII letters. */
  predicate SaysBusy(stderr: string) {
    exists i :: 0 <= i < |stderr| && BusyAt(stderr, i)
  }

  /** Four letters that spell "busy", each in either case. */
  predicate SpellsBusy(w: string) {
    |w| == 4 && w[0] in {'b', 'B'} && w[1] in {'u', 'U'} && w[2] in {'s', 'S'} && w[3] in {'y', 'Y'}
  }

  lemma SpelledAt(s: string, i: int)
    ensures BusyAt(s, i) <==> 0 <= i <= |s| - 4 && SpellsBusy(s[i..i + 4])
  {
  }

  /** The word may stand anywhere, whatever comes before and after it. */
  lemma SaysBusyMeans(stderr: string)
    ensures SaysBusy(stderr) <==> exists a, w, b :: stderr == a + w + b && SpellsBusy(w)
  {
    hide BusyAt, SpellsBusy;
    if i :| 0 <= i < |stderr| && BusyAt(stderr, i) {
      SpelledAt(stderr, i);
      assert stderr == stderr[..i] + stderr[i..i + 4] + stderr[i + 4..];
    }
    if a, w, b :| stderr == a + w + b && SpellsBusy(w) {
      FourLetters(w);
      assert stderr[|a|..|a| + 4] == w;
      SpelledAt(stderr, |a|);
    }
  }

  lemma FourLetters(w: string)
    requires SpellsBusy(w)
    ensures |w| == 4
  {
  }

  predicate Busy(r: Reply) {
    r.code != 0 && SaysBusy(r.stderr)
  }

  /** The pause before call number `k + 1`. */
  function Backoff(initial: real, k: nat): real {
    initial * Pow2(k) as real
  }

  /** The first `k` pauses together. */
  function Pauses(initial: real, k: nat): real {
    if k == 0 then 0.0 else Pauses(initial, k - 1) + Backoff(initial, k - 1)
  }

  lemma PausesStep(initial: real, k: nat)
    ensures Pauses(initial, 0) == 0.0 && Backoff(initial, 0) == initial
    ensures Pauses(initial, k + 1) == Pauses(initial, k) + Backoff(initial, k)
    ensures Backoff(initial, k + 1) == Backoff(initial, k) * 2.0
  {
    assert Pow2(0) == 1;
    Doubles(initial, Pow2(k));
  }

  function GeometricSum(initial: real, k: nat): real {
    initial * (Pow2(k) - 1) as real
  }

  lemma {:induction false} PausesAre(initial: real, k: nat)
    ensures Pauses(initial, k) == GeometricSum(initial, k)
  {
    if k > 0 {
      PausesAre(initial, k - 1);
      var p := Pow2(k - 1);
      assert (2 * p - 1) as real == (p - 1) as real + p as real;
      Distributes(initial, (p - 1) as real, p as real);
    }
  }

  lemma Distributes(a: real, b: real, c: real)
    ensures a * (b + c) == a * b + a * c
  {
  }

  /** `runner(n)` is what call number `n` answers. */
  method Umount(runner: nat -> Reply, maxAttempts: nat, initial: real) returns (ok: bool, calls: nat, slept: real)
    ensures calls <= maxAttempts && (maxAttempts > 0 ==> calls > 0)
    ensures ok <==> exists k: nat :: k < maxAttempts && runner(k).code == 0 && forall j: nat | j < k :: Busy(runner(j))
    ensures ok ==> runner(calls - 1).code == 0
    ensures forall j: nat | j + 1 < calls :: Busy(runner(j))
    ensures !ok && calls < maxAttempts ==> !Busy(runner(calls - 1)) && runner(calls - 1).code != 0
    ensures slept == if calls == 0 then 0.0 else GeometricSum(initial, calls - 1)
  {
    var backoff := initial;
    var attempt := 0;
    calls, slept := 0, 0.0;
    PausesStep(initial, 0);
    hide Pauses, Backoff, Pow2, SaysBusy, GeometricSum;
    while attempt < maxAttempts
      invariant attempt <= maxAttempts && calls == attempt
      invariant forall j: nat | j < attempt :: Busy(runner(j))
      invariant attempt < maxAttempts ==> slept == Pauses(initial, attempt) && backoff == Backoff(initial, attempt)
      invariant attempt == maxAttempts > 0 ==> slept == Pauses(initial, attempt - 1)
      invariant maxAttempts == 0 ==> slept == 0.0
    {
      var result := runner(attempt);
      calls := calls + 1;
      PausesAre(initial, attempt);
      PausesStep(initial, attempt);
      if result.code == 0 {
        return true, calls, slept;
      }
      if !SaysBusy(result.stderr) {
        return false, calls, slept;
      }
      if attempt < maxAttempts - 1 {
        slept := slept + backoff;
        backoff := backoff * 2.0;
      }
      attempt := attempt + 1;
    }
    if attempt > 0 { PausesAre(initial, attempt - 1); }
    ok := false;
  }

  lemma Doubles(a: real, p: nat)
    ensures a * p as real * 2.0 == a * (2 * p) as real
  {
    assert (2 * p) as real == p as real * 2.0;
  }
}
