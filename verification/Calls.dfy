/** Calls to Docker and to the proxy front, by what becomes of each one, counted from the start of a run. */
module Calls {
  datatype Option<T> = None | Some(value: T)

  /** Done; answered with a refusal, without effect; or failed without an answer, with or without its effect. */
  datatype Fate = Done | Refused | Lost(happened: bool)

  type Fates = nat -> Fate

  predicate Takes(f: Fate)
  {
    f.Done? || (f.Lost? && f.happened)
  }

  /** The `m` calls from the `n`-th on are done. */
  predicate Smooth(fate: Fates, n: nat, m: nat)
  {
    forall i | n <= i < n + m :: fate(i).Done?
  }

  /** The calls from the `n`-th on ended, before the `end`-th, with one that was not done. */
  predicate FailsBefore(fate: Fates, n: nat, end: nat)
  {
    end > n && Smooth(fate, n, end - 1 - n) && !fate(end - 1).Done?
  }

  ghost predicate AllDone(fate: Fates, n: nat)
  {
    forall i :: i >= n ==> fate(i).Done?
  }

  lemma SmoothAfter(fate: Fates, n: nat, a: nat, b: nat)
    ensures Smooth(fate, n, a + b) <==> Smooth(fate, n, a) && Smooth(fate, n + a, b)
  {
  }

  lemma SmoothTwo(fate: Fates, n: nat, m: nat)
    ensures Smooth(fate, n, 2) <==> fate(n).Done? && fate(n + 1).Done?
    ensures Smooth(fate, n, 2 + m) <==> Smooth(fate, n, 2) && Smooth(fate, n + 2, m)
  {
  }

  lemma SmoothOne(fate: Fates, n: nat, m: nat)
    ensures Smooth(fate, n, 1) <==> fate(n).Done?
    ensures Smooth(fate, n, 1 + m) <==> fate(n).Done? && Smooth(fate, n + 1, m)
  {
  }

  lemma DoneIsSmooth(fate: Fates, n: nat, m: nat)
    ensures AllDone(fate, n) ==> Smooth(fate, n, m) && AllDone(fate, n + m)
  {
  }

  lemma DoneFirst(fate: Fates, n: nat)
    ensures AllDone(fate, n) ==> fate(n).Done? && AllDone(fate, n + 1)
  {
  }

  lemma DoneLater(fate: Fates, n: nat, m: nat)
    requires n <= m
    ensures AllDone(fate, n) ==> AllDone(fate, m)
  {
  }

  lemma FailsFirst(fate: Fates, n: nat)
    ensures !fate(n).Done? ==> FailsBefore(fate, n, n + 1)
    ensures fate(n).Done? && !fate(n + 1).Done? ==> FailsBefore(fate, n, n + 2)
  {
  }

  lemma FailsLater(fate: Fates, n: nat, m: nat, end: nat)
    requires Smooth(fate, n, m)
    ensures FailsBefore(fate, n + m, end) ==> FailsBefore(fate, n, end)
  {
  }

  lemma Nothing(fate: Fates, n: nat)
    ensures Smooth(fate, n, 0)
  {
  }
}
