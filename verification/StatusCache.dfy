/**
 The public status endpoint and its response cache: where a cached body comes from, how
 old it can be, and which requests share a cache key.
 */
module StatusCache {
  import opened Wrappers
  import opened Ordering
  import opened MapSums
  import opened Metrics
  import opened Live
  import opened Normaliser
  import opened PublicStatus
  import opened System
  import opened Reachable

  // ---- One request without interruption ----

  datatype Reply = Hit(body: Body) | Miss(body: Body) | NotFound

  class StatusHandler {
    const config: Config
    var cache: map<string, CacheItem>

    constructor (config: Config)
      ensures this.config == config && cache == map[]
    {
      this.config, cache := config, map[];
    }

    /** The look-up happens at time `checked`, storing at time `stored`, with the given snapshot of the live store. */
    method ServeStatusRequest(key: string, isAll: bool, states: Instances<Family>, checked: int, stored: int)
      returns (reply: Reply)
      modifies this
      ensures key in old(cache) && checked < old(cache)[key].expiresAt ==>
                reply == Hit(old(cache)[key].body) && cache == old(cache)
      ensures !(key in old(cache) && checked < old(cache)[key].expiresAt) ==>
                var j := Rendering(key, isAll, states);
                && (!Renderable(j) ==> reply == NotFound && cache == old(cache))
                && (Renderable(j) ==>
                      && reply == Miss(Render(config, j))
                      && cache == old(cache)[key := CacheItem(Render(config, j), stored + config.cacheTtl)])
    {
      if key in cache && checked < cache[key].expiresAt {
        return Hit(cache[key].body);
      }
      var body: Body;
      if isAll {
        var resp := RenderAll(states);
        body := Full(resp);
      } else {
        if key !in states {
          return NotFound;
        }
        var data := CollectPublicData(states[key], config.public);
        body := One(data);
      }
      cache := cache[key := CacheItem(body, stored + config.cacheTtl)];
      return Miss(body);
    }

    method RenderAll(states: Instances<Family>) returns (resp: map<string, PublicData>)
      ensures resp == map id | id in states :: PublicOf(states[id], config.public)
    {
      ghost var whole := map id | id in states :: PublicOf(states[id], config.public);
      resp := map[];
      var order := RangeOrder(states.Keys);
      PartEnds(whole, order);
      for i := 0 to |order|
        invariant resp == Part(whole, order, i)
      {
        assert order[i] in whole && whole[order[i]] == PublicOf(states[order[i]], config.public);
        PartTurn(whole, order, i);
        hide Part, PublicOf;
        var data := CollectPublicData(states[order[i]], config.public);
        resp := resp[order[i] := data];
      }
    }
  }

  /** Uninterrupted, the handler does what the machine's three steps do. */
  lemma RequestIsThreeSteps(c: Config, s: State, job: nat, key: string, isAll: bool, checked: int, stored: int)
    requires job !in s.jobs && (isAll ==> key == ALL)
    ensures var s1 := Step(c, s, Lookup(job, key, isAll, checked));
      if IsHit(s, key, checked) then s1 == s
      else
        && Enabled(c, s1, Snapshot(job))
        && var s2 := Step(c, s1, Snapshot(job));
        var j := Rendering(key, isAll, s.store.live);
        && (!Renderable(j) ==> s2 == s)
        && (Renderable(j) ==>
              && Enabled(c, s2, Fill(job, stored))
              && Step(c, s2, Fill(job, stored)) == s.(cache := s.cache[key := CacheItem(Render(c, j), stored + c.cacheTtl)]))
  {
    hide Render;
    if !IsHit(s, key, checked) {
      var s1 := Step(c, s, Lookup(job, key, isAll, checked));
      var s2 := Step(c, s1, Snapshot(job));
      assert s1.jobs - {job} == s.jobs;
      if Renderable(Rendering(key, isAll, s.store.live)) {
        assert s2.jobs - {job} == s.jobs;
      }
    }
  }

  /** A stored body is served for exactly as long as the lifetime of a cache entry, and not at its end. */
  lemma StoredIsServed(c: Config, s: State, e: Event, now: int)
    requires e.Fill? && Enabled(c, s, e)
    ensures var job, s' := s.jobs[e.job], Step(c, s, e);
      && (IsHit(s', job.key, now) <==> now - e.now < c.cacheTtl)
      && (now - e.now < c.cacheTtl ==> forall all :: AnswerOf(c, s', job.key, all, now) == Hit(Render(c, job)))
  {
    hide Render;
  }

  // ---- Interleaved requests ----

  /** A body rendered for a key from a state of the live store: one instance's, or, under `all`, everybody's. */
  ghost predicate IsBodyFor(c: Config, key: string, live: Instances<Family>, body: Body) {
    match body
    case One(data) => key in live && data == PublicOf(live[key], c.public)
    case Full(all) => key == ALL && all.Keys == live.Keys && forall id :: id in live ==> all[id] == PublicOf(live[id], c.public)
  }

  /** The snapshot was the live store before event `i`. */
  ghost predicate TakenAt(c: Config, es: seq<Event>, i: nat, snapshot: Instances<Family>)
    requires IsRun(c, es)
  {
    i < |es| && snapshot == At(c, es, i).store.live
  }

  /** The item was put in the cache by event `k`, from the live store as it was before event `i`. */
  ghost predicate StoredAt(c: Config, es: seq<Event>, i: nat, k: nat, key: string, item: CacheItem)
    requires IsRun(c, es)
  {
    && i <= k < |es|
    && es[k].Fill? && item.expiresAt == es[k].now + c.cacheTtl
    && IsBodyFor(c, key, At(c, es, i).store.live, item.body)
  }

  ghost predicate WasStored(c: Config, es: seq<Event>, key: string, item: CacheItem)
    requires IsRun(c, es)
  {
    exists i: nat, k: nat :: StoredAt(c, es, i, k, key, item)
  }

  ghost predicate JobFrom(c: Config, es: seq<Event>, job: Job)
    requires IsRun(c, es)
  {
    match job
    case Missed(key, all) => all ==> key == ALL
    case Rendering(key, all, snapshot) =>
      && (all ==> key == ALL)
      && Renderable(job)
      && exists i: nat :: TakenAt(c, es, i, snapshot)
    case _ => true
  }

  ghost predicate JobsFrom(c: Config, es: seq<Event>, jobs: map<nat, Job>)
    requires IsRun(c, es)
  {
    forall j :: j in jobs ==> JobFrom(c, es, jobs[j])
  }

  ghost predicate CacheFrom(c: Config, es: seq<Event>, cache: map<string, CacheItem>)
    requires IsRun(c, es)
  {
    forall key :: key in cache ==> WasStored(c, es, key, cache[key])
  }

  lemma JobFromPrefix(c: Config, es: seq<Event>, job: Job)
    requires IsRun(c, es) && es != []
    requires IsRun(c, es[..|es| - 1]) && JobFrom(c, es[..|es| - 1], job)
    ensures JobFrom(c, es, job)
  {
    var n := |es| - 1;
    if job.Rendering? {
      var i: nat :| TakenAt(c, es[..n], i, job.snapshot);
      AtPrefix(c, es, n, i);
      hide At, IsRun;
      assert TakenAt(c, es, i, job.snapshot);
    }
  }

  lemma StoredInPrefix(c: Config, es: seq<Event>, key: string, item: CacheItem)
    requires IsRun(c, es) && es != []
    requires IsRun(c, es[..|es| - 1]) && WasStored(c, es[..|es| - 1], key, item)
    ensures WasStored(c, es, key, item)
  {
    var n := |es| - 1;
    var i: nat, k: nat :| StoredAt(c, es[..n], i, k, key, item);
    AtPrefix(c, es, n, i);
    hide At, IsRun, IsBodyFor;
    assert StoredAt(c, es, i, k, key, item);
  }

  lemma RenderIsBody(c: Config, job: Job)
    requires job.Rendering? && Renderable(job) && (job.all ==> job.key == ALL)
    ensures IsBodyFor(c, job.key, job.snapshot, Render(c, job))
  {
  }

  /** What one event adds to the jobs: nothing, a received or parsed payload, a missed look-up, or a fresh snapshot. */
  lemma NewJobs(c: Config, s: State, e: Event, j: nat)
    requires Enabled(c, s, e) && j in Step(c, s, e).jobs
    ensures var job := Step(c, s, e).jobs[j];
      || (j in s.jobs && job == s.jobs[j])
      || job.Received? || job.Parsed?
      || (job.Missed? && (job.all ==> job.key == ALL))
      || (e.Snapshot? && j in s.jobs && s.jobs[j].Missed? && Renderable(Rendering(s.jobs[j].key, s.jobs[j].all, s.store.live))
          && job == Rendering(s.jobs[j].key, s.jobs[j].all, s.store.live))
  {
    hide Outcome, Render, Staging.Append, Staging.Retrieve;
  }

  lemma NewItems(c: Config, s: State, e: Event, key: string)
    requires Enabled(c, s, e) && key in Step(c, s, e).cache
    ensures var item := Step(c, s, e).cache[key];
      || (key in s.cache && item == s.cache[key])
      || (e.Fill? && e.job in s.jobs && s.jobs[e.job].Rendering? && Renderable(s.jobs[e.job]) && key == s.jobs[e.job].key
          && item == CacheItem(Render(c, s.jobs[e.job]), e.now + c.cacheTtl))
  {
    hide Outcome, Render, Staging.Append, Staging.Retrieve;
  }

  lemma JobsStayFrom(c: Config, es: seq<Event>)
    requires IsRun(c, es) && es != []
    requires IsRun(c, es[..|es| - 1]) && JobsFrom(c, es[..|es| - 1], After(c, es[..|es| - 1]).value.jobs)
    ensures JobsFrom(c, es, After(c, es).value.jobs)
  {
    var n := |es| - 1;
    var s, e := After(c, es[..n]).value, es[n];
    RunStep(c, es, n);
    assert At(c, es, n) == s && After(c, es).value == Step(c, s, e);
    hide At, After, IsRun, Step, Enabled;
    forall j | j in Step(c, s, e).jobs
      ensures JobFrom(c, es, Step(c, s, e).jobs[j])
    {
      NewJobs(c, s, e, j);
      var job := Step(c, s, e).jobs[j];
      if j in s.jobs && job == s.jobs[j] {
        JobFromPrefix(c, es, job);
      } else if job.Rendering? {
        assert JobFrom(c, es[..n], s.jobs[j]);
        assert TakenAt(c, es, n, job.snapshot);
      }
    }
  }

  lemma CacheStaysFrom(c: Config, es: seq<Event>)
    requires IsRun(c, es) && es != []
    requires IsRun(c, es[..|es| - 1]) && JobsFrom(c, es[..|es| - 1], After(c, es[..|es| - 1]).value.jobs)
    requires CacheFrom(c, es[..|es| - 1], After(c, es[..|es| - 1]).value.cache)
    ensures CacheFrom(c, es, After(c, es).value.cache)
  {
    var n := |es| - 1;
    var s, e := After(c, es[..n]).value, es[n];
    RunStep(c, es, n);
    assert At(c, es, n) == s && After(c, es).value == Step(c, s, e);
    hide At, After, IsRun, Step, Enabled;
    forall key | key in Step(c, s, e).cache
      ensures WasStored(c, es, key, Step(c, s, e).cache[key])
    {
      NewItems(c, s, e, key);
      var item := Step(c, s, e).cache[key];
      if key in s.cache && item == s.cache[key] {
        StoredInPrefix(c, es, key, item);
      } else {
        var job := s.jobs[e.job];
        assert JobFrom(c, es[..n], job);
        var i: nat :| TakenAt(c, es[..n], i, job.snapshot);
        AtPrefix(c, es, n, i);
        RenderIsBody(c, job);
        assert StoredAt(c, es, i, n, key, item);
      }
    }
  }

  lemma NothingCached(c: Config)
    ensures After(c, []) == Some(INITIAL)
  {
  }

  /** Every cached body was rendered for its key from a state that the live store really had. */
  lemma {:induction false} CacheComesFromTheStore(c: Config, es: seq<Event>)
    requires IsRun(c, es)
    ensures JobsFrom(c, es, After(c, es).value.jobs)
    ensures CacheFrom(c, es, After(c, es).value.cache)
  {
    if es == [] {
      NothingCached(c);
    } else {
      var n := |es| - 1;
      PrefixIsRun(c, es, n);
      hide After, IsRun, JobsFrom, CacheFrom;
      CacheComesFromTheStore(c, es[..n]);
      JobsStayFrom(c, es);
      CacheStaysFrom(c, es);
    }
  }

  /**
   A hit serves a body that was rendered for this very key from the live store of an
   earlier moment, and that was stored less than the lifetime of a cache entry ago.
   */
  lemma HitIsRecent(c: Config, es: seq<Event>, key: string, now: int) returns (i: nat, k: nat)
    requires IsRun(c, es) && IsHit(After(c, es).value, key, now)
    ensures i <= k < |es| && es[k].Fill? && now - es[k].now < c.cacheTtl
    ensures IsBodyFor(c, key, At(c, es, i).store.live, After(c, es).value.cache[key].body)
  {
    CacheComesFromTheStore(c, es);
    hide After, At, IsRun, IsBodyFor;
    assert WasStored(c, es, key, After(c, es).value.cache[key]);
    i, k :| StoredAt(c, es, i, k, key, After(c, es).value.cache[key]);
  }

  /**
   Missing instances are never cached: under every key but `all` lies the status of that
   one instance, which existed when it was rendered and exists ever since.
   */
  lemma OtherKeysHoldTheirOwnInstance(c: Config, es: seq<Event>, key: string)
    requires IsRun(c, es) && key in After(c, es).value.cache && key != ALL
    ensures After(c, es).value.cache[key].body.One?
    ensures key in After(c, es).value.store.live
  {
    var i, k := HitIsRecent(c, es, key, After(c, es).value.cache[key].expiresAt - 1);
    InstancesStay(c, es, i, |es|);
    RunEnd(c, es);
  }

  /** A request that missed the cache is refused exactly when the live store has no such instance at the snapshot. */
  lemma RefusedExactlyWhenUnknown(c: Config, s: State, job: nat)
    requires Enabled(c, s, Snapshot(job))
    ensures var j := s.jobs[job];
      job !in Step(c, s, Snapshot(job)).jobs <==> !j.all && j.key !in s.store.live
  {
  }

  /** Once an instance has been seen, or served from the cache, no later request for it is refused. */
  lemma ServedStaysServed(c: Config, es: seq<Event>, i: nat, k: nat, key: string)
    requires IsRun(c, es) && i <= k < |es|
    requires key in At(c, es, i).store.live || (key != ALL && key in At(c, es, i).cache)
    requires es[k].Snapshot? && es[k].job in At(c, es, k).jobs && At(c, es, k).jobs[es[k].job] == Missed(key, false)
    ensures es[k].job in At(c, es, k + 1).jobs && At(c, es, k + 1).jobs[es[k].job] == Rendering(key, false, At(c, es, k).store.live)
  {
    RunStep(c, es, k);
    if key !in At(c, es, i).store.live {
      PrefixIsRun(c, es, i);
      OtherKeysHoldTheirOwnInstance(c, es[..i], key);
    }
    InstancesStay(c, es, i, k);
    hide At, IsRun;
  }

  // ---- The instance called `all` ----

  /** While no instance is called `all`, the full status is always a full status. */
  lemma FullStatusUnlessNamesake(c: Config, es: seq<Event>)
    requires IsRun(c, es) && ALL in After(c, es).value.cache && ALL !in After(c, es).value.store.live
    ensures After(c, es).value.cache[ALL].body.Full?
  {
    var i, k := HitIsRecent(c, es, ALL, After(c, es).value.cache[ALL].expiresAt - 1);
    InstancesStay(c, es, i, |es|);
    RunEnd(c, es);
  }

  /** What an uninterrupted request is answered with. */
  ghost function AnswerOf(c: Config, s: State, key: string, isAll: bool, now: int): Reply {
    if IsHit(s, key, now) then Hit(s.cache[key].body)
    else if Renderable(Rendering(key, isAll, s.store.live)) then Miss(Render(c, Rendering(key, isAll, s.store.live)))
    else NotFound
  }

  ghost predicate AnswersWithFull(r: Reply) {
    !r.NotFound? && r.body.Full?
  }

  /**
   A request for one instance is answered with everybody's status exactly when it asks for
   `all` and finds a full body cached. It is refused exactly when the instance is
   unknown and no such body is found.
   */
  lemma SingleRequestAnswers(c: Config, es: seq<Event>, key: string, now: int)
    requires IsRun(c, es)
    ensures var s := After(c, es).value;
      var r := AnswerOf(c, s, key, false, now);
      && (AnswersWithFull(r) <==> key == "all" && IsHit(s, "all", now) && s.cache["all"].body.Full?)
      && (r.NotFound? <==> key !in s.store.live && !AnswersWithFull(r))
  {
    var s := After(c, es).value;
    if IsHit(s, key, now) {
      if key == ALL {
        if !s.cache[ALL].body.Full? {
          SingleBodyHasItsInstance(c, es, key, now);
        }
      } else {
        OtherKeysHoldTheirOwnInstance(c, es, key);
      }
    }
    hide After, IsRun, PublicOf;
  }

  lemma SingleBodyHasItsInstance(c: Config, es: seq<Event>, key: string, now: int)
    requires IsRun(c, es) && IsHit(After(c, es).value, key, now) && After(c, es).value.cache[key].body.One?
    ensures key in After(c, es).value.store.live
  {
    var i, k := HitIsRecent(c, es, key, now);
    InstancesStay(c, es, i, |es|);
    RunEnd(c, es);
    hide At, After, IsRun, PublicOf;
  }

  /** Nobody is called `all`, and a request for that instance is answered with the full status. */
  lemma UnknownAllIsServed(c: Config) returns (es: seq<Event>, now: int)
    ensures IsRun(c, es) && ALL !in After(c, es).value.store.live
    ensures AnswersWithFull(AnswerOf(c, After(c, es).value, ALL, false, now))
  {
    NothingCached(c);
    now := c.cacheTtl - 1;
    var e1, e2, e3 := Lookup(0, ALL, true, 0), Snapshot(0), Fill(0, 0);
    es := [] + [e1, e2, e3];
    RequestIsThreeSteps(c, INITIAL, 0, ALL, true, 0, 0);
    RenderedTogether(c, INITIAL.store.live);
    hide After, Step, Enabled, Render, IsRun;
    ThreeMore(c, [], e1, e2, e3);
  }

  lemma RenderedTogether(c: Config, live: Instances<Family>)
    ensures Render(c, Rendering(ALL, true, live)).Full?
  {
  }

  /** The cached full status is one instance's. */
  ghost predicate FullStatusLost(c: Config, es: seq<Event>) {
    IsRun(c, es) && ALL in After(c, es).value.cache && After(c, es).value.cache[ALL].body.One?
  }

  ghost predicate LosesFullStatus(c: Config, es: seq<Event>, more: seq<Event>) {
    StatusRequestsOnly(more) && FullStatusLost(c, es + more)
  }

  ghost predicate StatusRequestsOnly(es: seq<Event>) {
    forall i :: 0 <= i < |es| ==> es[i].Lookup? || es[i].Snapshot? || es[i].Fill?
  }

  lemma {:induction false} FreeJob(taken: set<nat>) returns (job: nat)
    ensures forall j :: j in taken ==> j < job
    decreases |taken|
  {
    if taken == {} {
      job := 0;
    } else {
      var j :| j in taken;
      var rest := FreeJob(taken - {j});
      assert taken == (taken - {j}) + {j};
      job := if j < rest then rest else j + 1;
    }
  }

  /** A status request for an instance called `all` puts its own status where the full status is looked up. */
  lemma NamesakeReplacesFullStatus(c: Config, es: seq<Event>) returns (more: seq<Event>)
    requires IsRun(c, es) && ALL in After(c, es).value.store.live
    ensures LosesFullStatus(c, es, more)
  {
    var s := After(c, es).value;
    var job := FreeJob(s.jobs.Keys);
    var now := if ALL in s.cache then s.cache[ALL].expiresAt else 0;
    var e1, e2, e3 := Lookup(job, ALL, false, now), Snapshot(job), Fill(job, now);
    RequestIsThreeSteps(c, s, job, ALL, false, now, now);
    RenderedAlone(c, s.store.live);
    hide After, IsRun, Step, Enabled, Render;
    ThreeMore(c, es, e1, e2, e3);
    more := [e1, e2, e3];
  }

  lemma ThreeMore(c: Config, es: seq<Event>, e1: Event, e2: Event, e3: Event)
    requires IsRun(c, es) && Enabled(c, After(c, es).value, e1)
    requires Enabled(c, Step(c, After(c, es).value, e1), e2)
    requires Enabled(c, Step(c, Step(c, After(c, es).value, e1), e2), e3)
    ensures IsRun(c, es + [e1, e2, e3])
    ensures After(c, es + [e1, e2, e3]).value == Step(c, Step(c, Step(c, After(c, es).value, e1), e2), e3)
  {
    hide After, IsRun, Step, Enabled;
    OneMore(c, es, e1);
    OneMore(c, es + [e1], e2);
    OneMore(c, es + [e1] + [e2], e3);
    assert es + [e1] + [e2] + [e3] == es + [e1, e2, e3];
  }

  lemma RenderedAlone(c: Config, live: Instances<Family>)
    requires ALL in live
    ensures Render(c, Rendering(ALL, false, live)).One?
  {
  }

  lemma StatusStepKeepsLive(c: Config, s: State, e: Event)
    requires Enabled(c, s, e) && (e.Lookup? || e.Snapshot? || e.Fill?)
    ensures Step(c, s, e).store == s.store
  {
  }

  lemma {:induction false} StatusRequestsKeepLive(c: Config, es: seq<Event>, more: seq<Event>)
    requires IsRun(c, es + more) && StatusRequestsOnly(more)
    ensures IsRun(c, es) && After(c, es + more).value.store.live == After(c, es).value.store.live
    decreases |more|
  {
    hide Step, Enabled;
    if more == [] {
      assert es + more == es;
    } else {
      var n := |more| - 1;
      var all, init := es + more, es + more[..n];
      assert all[..|all| - 1] == init && all[|all| - 1] == more[n];
      PrefixIsRun(c, all, |init|);
      StatusRequestsKeepLive(c, es, more[..n]);
      StatusStepKeepsLive(c, After(c, init).value, more[n]);
    }
  }

  /**
   Whether status requests alone can make the full status answer with a single
   instance's: exactly when an instance is called `all`.
   */
  lemma FullStatusIsLostExactlyToANamesake(c: Config, es: seq<Event>)
    requires IsRun(c, es)
    ensures (exists more :: LosesFullStatus(c, es, more)) <==> ALL in After(c, es).value.store.live
  {
    if ALL in After(c, es).value.store.live {
      var more := NamesakeReplacesFullStatus(c, es);
      assert LosesFullStatus(c, es, more);
    }
    forall more | LosesFullStatus(c, es, more)
      ensures ALL in After(c, es).value.store.live
    {
      OnlyANamesakeDoes(c, es, more);
    }
  }

  lemma OnlyANamesakeDoes(c: Config, es: seq<Event>, more: seq<Event>)
    requires IsRun(c, es) && LosesFullStatus(c, es, more)
    ensures ALL in After(c, es).value.store.live
  {
    StatusRequestsKeepLive(c, es, more);
    hide After;
    if ALL !in After(c, es + more).value.store.live {
      FullStatusUnlessNamesake(c, es + more);
      assert false;
    }
  }
}
