/** Running a sequence of steps that may raise, in order: the values of the
    steps before the first exception, and that exception. */
module Results {
  import opened Strings
  import opened VcfTypes

  /** The values computed before the first failure, and the failure. */
  datatype Partial<T> = Partial(oks: seq<T>, failure: Option<Exc>)

  /** The first `n` results, stopping at the first error. */
  function Firsts<T>(rs: seq<Result<T>>, n: nat): Partial<T>
    requires n <= |rs|
  {
    if n == 0 then Partial([], None)
    else
      var prev := Firsts(rs, n - 1);
      if prev.failure.Some? then prev
      else
        match rs[n - 1]
        case Err(e) => Partial(prev.oks, Some(e))
        case Ok(v) => Partial(prev.oks + [v], None)
  }

  /** The values are the leading successes, in order; the failure, if any,
      is the error of the first result that is not a success. */
  lemma {:induction false} FirstsMeaning<T>(rs: seq<Result<T>>, n: nat)
    requires n <= |rs|
    ensures var p := Firsts(rs, n);
      |p.oks| <= n
      && (forall i :: 0 <= i < |p.oks| ==> rs[i] == Ok(p.oks[i]))
      && (p.failure.None? <==> |p.oks| == n)
      && (p.failure.Some? ==> rs[|p.oks|] == Err(p.failure.value))
  {
    if n > 0 {
      FirstsMeaning(rs, n - 1);
    }
  }

  /** Every result succeeds exactly when there is no failure. */
  lemma AllOk<T>(rs: seq<Result<T>>, n: nat)
    requires n <= |rs|
    ensures Firsts(rs, n).failure.None? <==> forall i :: 0 <= i < n ==> rs[i].Ok?
  {
    FirstsMeaning(rs, n);
    var p := Firsts(rs, n);
    if p.failure.Some? {
      assert rs[|p.oks|].Err?;
    }
  }

  /** Once a failure is met, later results change nothing. */
  lemma {:induction false} FirstsSticky<T>(rs: seq<Result<T>>, n: nat, m: nat)
    requires n <= m <= |rs| && Firsts(rs, n).failure.Some?
    ensures Firsts(rs, m) == Firsts(rs, n)
    decreases m - n
  {
    if n < m {
      FirstsSticky(rs, n, m - 1);
    }
  }

  /** Looking at more results only extends the values. */
  lemma {:induction false} FirstsExtends<T>(rs: seq<Result<T>>, n: nat, m: nat)
    requires n <= m <= |rs|
    ensures Firsts(rs, n).oks <= Firsts(rs, m).oks
    decreases m - n
  {
    if n < m {
      FirstsExtends(rs, n, m - 1);
    }
  }

  /** The results as one: all the values, or the first failure. */
  function Collect<T>(p: Partial<T>): Result<seq<T>>
  {
    if p.failure.Some? then Err(p.failure.value) else Ok(p.oks)
  }
}
