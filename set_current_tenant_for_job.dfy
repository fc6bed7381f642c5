/** `Sprout\Listeners\SetCurrentTenantForJob`: before a queued job runs, read
    the tenants captured when it was dispatched (`sprout.tenants`, tenancy name
    to tenant key) and load each named tenancy with its captured key. */
module JobListener {
  import opened Wrappers
  import opened Tenancies

  /** The `sprout.tenants` context entry: tenancy name and tenant key, in the
      iteration order of the PHP array. */
  type TenantContext = seq<(string, TenantKey)>

  /** The manager could not resolve the named tenancy; the exception ends the handler. */
  datatype RestoreError = UnknownTenancy(name: string)

  /** `Context::get('sprout.tenants', [])`: an absent entry reads as empty. */
  function ContextTenants(stored: Option<TenantContext>): (ctx: TenantContext)
    ensures stored.None? ==> ctx == []
    ensures stored.Some? ==> ctx == stored.value
  {
    stored.GetOr([])
  }

  /** PHP array keys are unique: no tenancy name occurs twice. */
  predicate DistinctNames(ctx: TenantContext)
  {
    forall i, j :: 0 <= i < j < |ctx| ==> ctx[i].0 != ctx[j].0
  }

  /** How many entries are restored before one names a tenancy the manager
      does not know: every entry before that point is known, the one at it is not. */
  function RestoredCount(ctx: TenantContext, known: set<string>): (k: nat)
    ensures k <= |ctx|
    ensures forall i :: 0 <= i < k ==> ctx[i].0 in known
    ensures k < |ctx| ==> ctx[k].0 !in known
  {
    if ctx == [] then 0
    else if ctx[0].0 in known then 1 + RestoredCount(ctx[1..], known)
    else 0
  }

  /** The calls the tenancy called `name` receives from restoring `ctx`, in order. */
  function LoadsFor(name: string, ctx: TenantContext): seq<TenancyCall>
  {
    if ctx == [] then []
    else (if ctx[0].0 == name then [LoadCall(ctx[0].1)] else []) + LoadsFor(name, ctx[1..])
  }

  /** Restoring one more entry adds at most one call, to the tenancy it names. */
  lemma {:induction false} LoadsForSnoc(name: string, ctx: TenantContext, e: (string, TenantKey))
    ensures LoadsFor(name, ctx + [e]) == LoadsFor(name, ctx) + (if e.0 == name then [LoadCall(e.1)] else [])
  {
    if ctx != [] {
      assert (ctx + [e])[1..] == ctx[1..] + [e];
      LoadsForSnoc(name, ctx[1..], e);
    }
  }

  /** A tenancy is touched if and only if some entry names it. */
  lemma {:induction false} LoadsForUntouched(name: string, ctx: TenantContext)
    ensures LoadsFor(name, ctx) == [] <==> forall i :: 0 <= i < |ctx| ==> ctx[i].0 != name
  {
    if ctx != [] {
      LoadsForUntouched(name, ctx[1..]);
      assert forall i :: 1 <= i < |ctx| ==> ctx[i] == ctx[1..][i - 1];
    }
  }

  /** Every key loaded into a tenancy is a key captured for that tenancy's name. */
  lemma {:induction false} LoadsForOnlyCapturedKeys(name: string, ctx: TenantContext)
    ensures forall c :: c in LoadsFor(name, ctx) ==> (name, c.key) in ctx
  {
    if ctx != [] {
      LoadsForOnlyCapturedKeys(name, ctx[1..]);
    }
  }

  /** With unique names, the tenancy named by an entry receives exactly one
      call: `load` with that entry's key. */
  lemma {:induction false} LoadsForExactlyOnce(name: string, ctx: TenantContext, i: nat)
    requires DistinctNames(ctx)
    requires i < |ctx| && ctx[i].0 == name
    ensures LoadsFor(name, ctx) == [LoadCall(ctx[i].1)]
  {
    if i == 0 {
      LoadsForUntouched(name, ctx[1..]);
    } else {
      LoadsForExactlyOnce(name, ctx[1..], i - 1);
    }
  }

  /** The number of calls the tenancies named in `names` receive in all. */
  function LoadCount(names: seq<string>, ctx: TenantContext): nat
  {
    if names == [] then 0 else |LoadsFor(names[0], ctx)| + LoadCount(names[1..], ctx)
  }

  /** How often `x` occurs in `names`. */
  function Occurrences(names: seq<string>, x: string): nat
  {
    if names == [] then 0 else (if names[0] == x then 1 else 0) + Occurrences(names[1..], x)
  }

  lemma {:induction false} LoadCountCons(names: seq<string>, e: (string, TenantKey), ctx: TenantContext)
    ensures LoadCount(names, [e] + ctx) == Occurrences(names, e.0) + LoadCount(names, ctx)
  {
    assert ([e] + ctx)[1..] == ctx;
    if names != [] {
      LoadCountCons(names[1..], e, ctx);
    }
  }

  lemma {:induction false} OccurrencesOnce(names: seq<string>, x: string)
    requires forall i, j :: 0 <= i < j < |names| ==> names[i] != names[j]
    requires x in names
    ensures Occurrences(names, x) == 1
  {
    if names[0] == x {
      OccurrencesNone(names[1..], x);
    } else {
      OccurrencesOnce(names[1..], x);
    }
  }

  lemma {:induction false} OccurrencesNone(names: seq<string>, x: string)
    requires x !in names
    ensures Occurrences(names, x) == 0
  {
    if names != [] {
      OccurrencesNone(names[1..], x);
    }
  }

  /** Over all tenancies, restoring makes exactly one `load` per entry: the
      calls received by the tenancies in `names` (each name once, every entry's
      name among them) number exactly the entries. */
  lemma {:induction false} LoadCountIsEntryCount(names: seq<string>, ctx: TenantContext)
    requires forall i, j :: 0 <= i < j < |names| ==> names[i] != names[j]
    requires forall i :: 0 <= i < |ctx| ==> ctx[i].0 in names
    ensures LoadCount(names, ctx) == |ctx|
  {
    if ctx == [] {
      LoadCountEmpty(names);
    } else {
      assert [ctx[0]] + ctx[1..] == ctx;
      LoadCountCons(names, ctx[0], ctx[1..]);
      OccurrencesOnce(names, ctx[0].0);
      LoadCountIsEntryCount(names, ctx[1..]);
    }
  }

  lemma {:induction false} LoadCountEmpty(names: seq<string>)
    ensures LoadCount(names, []) == 0
  {
    if names != [] {
      LoadCountEmpty(names[1..]);
    }
  }

  /** The restored count is the first position whose tenancy is unknown. */
  lemma RestoredCountAt(ctx: TenantContext, known: set<string>, i: nat)
    requires i <= |ctx|
    requires forall j :: 0 <= j < i ==> ctx[j].0 in known
    requires i < |ctx| ==> ctx[i].0 !in known
    ensures RestoredCount(ctx, known) == i
  {
  }

  /** After the first `i` entries: each named a known tenancy, and every
      tenancy in `m` holds its calls from `before` followed by those entries' loads. */
  ghost predicate Restored(m: map<string, Tenancy>, before: map<string, seq<TenancyCall>>, ctx: TenantContext, i: nat)
    reads set n | n in m :: m[n]
  {
    i <= |ctx| &&
    (forall j :: 0 <= j < i ==> ctx[j].0 in m) &&
    forall n :: n in m ==> n in before && m[n].calls == before[n] + LoadsFor(n, ctx[..i])
  }

  /** `loaded` is the trace of the loads made for the first `i` entries. */
  ghost predicate Traced(ctx: TenantContext, i: nat, loaded: TenantContext)
  {
    i <= |ctx| && loaded == ctx[..i]
  }

  /** Restoring entry `i` appends its load to the trace. */
  lemma TracedStep(ctx: TenantContext, i: nat, loaded: TenantContext)
    requires i < |ctx| && Traced(ctx, i, loaded)
    ensures Traced(ctx, i + 1, loaded + [ctx[i]])
  {
    assert ctx[..i + 1] == ctx[..i] + [ctx[i]];
  }

  /** Restoring entry `i` adds its load to the tenancy it names and nothing
      to any other. */
  lemma LoadsForStep(ctx: TenantContext, i: nat)
    requires i < |ctx|
    ensures forall n :: LoadsFor(n, ctx[..i + 1]) == LoadsFor(n, ctx[..i]) + (if ctx[i].0 == n then [LoadCall(ctx[i].1)] else [])
  {
    assert ctx[..i + 1] == ctx[..i] + [ctx[i]];
    forall n {
      LoadsForSnoc(n, ctx[..i], ctx[i]);
    }
  }

  /** Tenancy `t`, the one entry `i` names, takes its `load`; every tenancy's
      calls then extend by what `LoadsFor` adds for that entry. */
  method LoadOne(ghost m: map<string, Tenancy>, ghost before: map<string, seq<TenancyCall>>, ctx: TenantContext, i: nat, t: Tenancy)
    requires i < |ctx| && ctx[i].0 in m && m[ctx[i].0] == t
    requires forall n :: n in m ==> m[n].name == n
    requires Restored(m, before, ctx, i)
    modifies t
    ensures Restored(m, before, ctx, i + 1)
  {
    LoadsForStep(ctx, i);
    t.Load(ctx[i].1);
    forall n | n in m
      ensures m[n].calls == before[n] + LoadsFor(n, ctx[..i + 1])
    {
      if n != ctx[i].0 {
        assert m[n] != t && m[n].calls == old(m[n].calls);
      }
    }
  }

  class SetCurrentTenantForJob {
    const tenancies: TenancyManager

    constructor (tenancies: TenancyManager)
      ensures this.tenancies == tenancies
    {
      this.tenancies := tenancies;
    }

    /** `SetCurrentTenantForJob::handle($event)`, with the job context's
        `sprout.tenants` entry as `stored`. Each entry, in order, loads its
        tenancy with its key, until an entry names a tenancy the manager cannot
        resolve; every tenancy ends up with exactly the calls `LoadsFor` gives
        for the restored entries, so tenancies no entry names are untouched.
        `loaded` lists each `load` made, as tenancy name and key, in the order
        the calls were made across all tenancies. */
    method Handle(stored: Option<TenantContext>) returns (outcome: Outcome<RestoreError>, ghost loaded: TenantContext)
      requires tenancies.Valid()
      modifies tenancies.Objects()
      ensures var ctx := ContextTenants(stored);
              var k := RestoredCount(ctx, tenancies.tenancies.Keys);
              (outcome.Pass? <==> k == |ctx|) &&
              (outcome.Fail? ==> outcome.error == UnknownTenancy(ctx[k].0)) &&
              forall n :: n in tenancies.tenancies ==>
                tenancies.tenancies[n].calls == old(tenancies.tenancies[n].calls) + LoadsFor(n, ctx[..k])
      ensures loaded == ContextTenants(stored)[..RestoredCount(ContextTenants(stored), tenancies.tenancies.Keys)]
    {
      var ctx := ContextTenants(stored);
      ghost var m := tenancies.tenancies;
      ghost var before := map n | n in m :: m[n].calls;
      assert Restored(m, before, ctx, 0);
      outcome := Pass;
      loaded := [];
      var i := 0;
      while i < |ctx|
        invariant tenancies.tenancies == m
        invariant Restored(m, before, ctx, i)
        invariant Traced(ctx, i, loaded)
      {
        var tenancy := tenancies.Get(ctx[i].0);
        if tenancy.None? {
          outcome := Fail(UnknownTenancy(ctx[i].0));
          break;
        }
        assert tenancy.value in tenancies.Objects();
        LoadOne(m, before, ctx, i, tenancy.value);
        TracedStep(ctx, i, loaded);
        loaded := loaded + [ctx[i]];
        i := i + 1;
      }
      RestoredCountAt(ctx, m.Keys, i);
    }
  }
}
