/**
 The caching DNS resolver of the egress policy. Calls of several goroutines
 interleave between the lock of the cache and their lookups.
 */
module ResolverCache {
  import opened Names
  import opened Netip
  import opened Wrappers

  // Normal form of an answer

  /** The single-host prefixes of the addresses; `render` writes one as text. */
  function Rendered(addrs: seq<Addr>, render: Addr -> string): seq<string> {
    seq(|addrs|, i requires 0 <= i < |addrs| => render(Unmap(addrs[i])))
  }

  function Dedup(s: seq<string>): seq<string> {
    if s == [] then []
    else
      var d := Dedup(s[..|s| - 1]);
      if s[|s| - 1] in d then d else d + [s[|s| - 1]]
  }

  function Normalize(addrs: seq<Addr>, render: Addr -> string): seq<string> {
    Sort(Dedup(Rendered(addrs, render)))
  }

  lemma {:induction false} DedupMembers(s: seq<string>)
    ensures Distinct(Dedup(s)) && Members(Dedup(s)) == Members(s)
  {
    if s != [] {
      var init, last := s[..|s| - 1], s[|s| - 1];
      assert s == init + [last];
      DedupMembers(init);
      assert Members(s) == Members(init) + {last};
    }
  }

  /** An answer is increasing, holds each address once, and nothing else. */
  lemma NormalizeMeans(addrs: seq<Addr>, render: Addr -> string)
    ensures Increasing(Normalize(addrs, render))
    ensures forall p :: p in Normalize(addrs, render) <==> exists a :: a in addrs && render(Unmap(a)) == p
  {
    hide Dedup, Sort, Increasing;
    var all := Rendered(addrs, render);
    DedupMembers(all);
    SortIncreasing(Dedup(all));
    forall p ensures p in Normalize(addrs, render) <==> exists a :: a in addrs && render(Unmap(a)) == p {
      assert p in Normalize(addrs, render) <==> p in Members(Normalize(addrs, render));
      assert p in all <==> p in Members(all);
      if p in all {
        var i :| 0 <= i < |all| && all[i] == p;
        assert addrs[i] in addrs;
      }
      if a :| a in addrs && render(Unmap(a)) == p {
        var i :| 0 <= i < |addrs| && addrs[i] == a;
        assert all[i] == p;
      }
    }
  }

  /** Two lookups that find the same addresses, in whatever order and number, give the same answer. */
  lemma NormalizeBySet(a: seq<Addr>, b: seq<Addr>, render: Addr -> string)
    requires forall x :: x in a <==> x in b
    ensures Normalize(a, render) == Normalize(b, render)
  {
    hide Normalize, Increasing, Unmap;
    NormalizeMeans(a, render);
    NormalizeMeans(b, render);
    forall p ensures p in Normalize(a, render) <==> p in Normalize(b, render) {
    }
    assert Members(Normalize(a, render)) == Members(Normalize(b, render));
    IncreasingUnique(Normalize(a, render), Normalize(b, render));
  }

  method NormalizePrefixes(addrs: seq<Addr>, render: Addr -> string) returns (out: seq<string>)
    ensures out == Normalize(addrs, render)
  {
    hide Dedup, Sort;
    ghost var all := Rendered(addrs, render);
    var seen: set<string> := {};
    out := [];
    DedupAppend([], "");
    for i := 0 to |addrs|
      invariant out == Dedup(all[..i])
      invariant seen == Members(out)
    {
      var p := render(Unmap(addrs[i]));
      assert all[..i + 1] == all[..i] + [p];
      DedupAppend(all[..i], p);
      if p !in seen {
        seen := seen + {p};
        out := out + [p];
      }
    }
    assert all[..|addrs|] == all;
    out := Sort(out);
  }

  lemma DedupAppend(s: seq<string>, p: string)
    ensures Dedup([]) == []
    ensures Dedup(s + [p]) == if p in Dedup(s) then Dedup(s) else Dedup(s) + [p]
  {
    assert (s + [p])[..|s|] == s;
  }

  // The cache

  type Host = string

  datatype Entry = Entry(prefixes: seq<string>, at: int)

  /** A cached answer younger than the limit, as seen from `now`. */
  function Within(entries: map<Host, Entry>, host: Host, now: int, limit: int): Option<seq<string>> {
    if host in entries && now - entries[host].at < limit then Some(entries[host].prefixes) else None
  }

  datatype Lookup = NotYet | Failed | Found(prefixes: seq<string>)
  datatype Stage = Begun | Missed | Returned(answer: Option<seq<string>>)
  datatype Call = Call(host: Host, began: int, looked: Lookup, stage: Stage)

  datatype Options = Options(ttl: int, grace: int)

  datatype World = World(clock: int, entries: map<Host, Entry>, calls: seq<Call>)

  /** Begin reads the clock; CheckFresh, and the store or stale read of Finish, hold the lock; LookUp does not. */
  datatype Step =
    | Tick(span: nat)
    | Begin(host: Host)
    | CheckFresh(c: nat)
    | LookUp(c: nat, result: Option<seq<string>>)
    | Finish(c: nat)

  predicate Enabled(w: World, s: Step) {
    match s
    case Tick(_) => true
    case Begin(_) => true
    case CheckFresh(c) => c < |w.calls| && w.calls[c].stage.Begun?
    case LookUp(c, _) => c < |w.calls| && w.calls[c].stage.Missed? && w.calls[c].looked.NotYet?
    case Finish(c) => c < |w.calls| && w.calls[c].stage.Missed? && !w.calls[c].looked.NotYet?
  }

  function Apply(o: Options, w: World, s: Step): World
    requires Enabled(w, s)
  {
    match s
    case Tick(span) => w.(clock := w.clock + span)
    case Begin(host) => w.(calls := w.calls + [Call(host, w.clock, NotYet, Begun)])
    case CheckFresh(c) =>
      var call := w.calls[c];
      var hit := Within(w.entries, call.host, call.began, o.ttl);
      w.(calls := w.calls[c := call.(stage := if hit.Some? then Returned(hit) else Missed)])
    case LookUp(c, result) =>
      w.(calls := w.calls[c := w.calls[c].(looked := if result.Some? then Found(result.value) else Failed)])
    case Finish(c) =>
      var call := w.calls[c];
      if call.looked.Found? then
        w.(entries := w.entries[call.host := Entry(call.looked.prefixes, call.began)],
           calls := w.calls[c := call.(stage := Returned(Some(call.looked.prefixes)))])
      else
        w.(calls := w.calls[c := call.(stage := Returned(Within(w.entries, call.host, call.began, o.grace)))])
  }

  ghost predicate Run(o: Options, ws: seq<World>, steps: seq<Step>) {
    && |ws| == |steps| + 1
    && ws[0].entries == map[] && ws[0].calls == []
    && forall i :: 0 <= i < |steps| ==> Enabled(ws[i], steps[i]) && ws[i + 1] == Apply(o, ws[i], steps[i])
  }

  /** The lookup of call d, begun at `at`, found this answer for the host. */
  predicate FoundBy(w: World, d: nat, host: Host, at: int, prefixes: seq<string>) {
    d < |w.calls| && w.calls[d].host == host && w.calls[d].began == at && w.calls[d].looked == Found(prefixes)
  }

  ghost predicate EntryOk(w: World, host: Host)
    requires host in w.entries
  {
    exists d :: FoundBy(w, d, host, w.entries[host].at, w.entries[host].prefixes)
  }

  /** Some lookup of the host that began less than the limit before this call found the answer. */
  ghost predicate FromCache(w: World, call: Call, answer: seq<string>, limit: int) {
    exists d, at :: FoundBy(w, d, call.host, at, answer) && call.began - at < limit
  }

  /**
   What a returned answer may be: the call's own lookup; without one, that of a
   call within the TTL; after its own failed, that of a call within the grace.
   */
  ghost predicate CallOk(o: Options, w: World, c: nat)
    requires c < |w.calls|
  {
    var call := w.calls[c];
    && (call.stage.Begun? ==> call.looked.NotYet?)
    && (call.stage.Returned? && call.stage.answer.None? ==> call.looked.Failed?)
    && (call.stage.Returned? && call.stage.answer.Some? ==>
          match call.looked
          case Found(prefixes) => call.stage.answer.value == prefixes
          case NotYet => FromCache(w, call, call.stage.answer.value, o.ttl)
          case Failed => FromCache(w, call, call.stage.answer.value, o.grace))
  }

  ghost predicate Inv(o: Options, w: World) {
    && (forall host :: host in w.entries ==> EntryOk(w, host))
    && (forall c :: 0 <= c < |w.calls| ==> CallOk(o, w, c))
  }

  lemma FoundStays(o: Options, w: World, s: Step, d: nat, host: Host, at: int, prefixes: seq<string>)
    requires Enabled(w, s) && FoundBy(w, d, host, at, prefixes)
    ensures FoundBy(Apply(o, w, s), d, host, at, prefixes)
  {
  }

  lemma FromCacheStays(o: Options, w: World, s: Step, call: Call, answer: seq<string>, limit: int)
    requires Enabled(w, s) && FromCache(w, call, answer, limit)
    ensures FromCache(Apply(o, w, s), call, answer, limit)
  {
    var d, at :| FoundBy(w, d, call.host, at, answer) && call.began - at < limit;
    FoundStays(o, w, s, d, call.host, at, answer);
  }

  lemma HitFromCache(o: Options, w: World, call: Call, limit: int)
    requires Inv(o, w) && Within(w.entries, call.host, call.began, limit).Some?
    ensures FromCache(w, call, Within(w.entries, call.host, call.began, limit).value, limit)
  {
    assert EntryOk(w, call.host);
  }

  lemma StepEntry(o: Options, w: World, s: Step, host: Host)
    requires Inv(o, w) && Enabled(w, s) && host in Apply(o, w, s).entries
    ensures EntryOk(Apply(o, w, s), host)
  {
    if s.Finish? && w.calls[s.c].looked.Found? && w.calls[s.c].host == host {
      var call := w.calls[s.c];
      FoundStays(o, w, s, s.c, host, call.began, call.looked.prefixes);
    } else {
      assert EntryOk(w, host);
      var d :| FoundBy(w, d, host, w.entries[host].at, w.entries[host].prefixes);
      FoundStays(o, w, s, d, host, w.entries[host].at, w.entries[host].prefixes);
    }
  }

  lemma StepCall(o: Options, w: World, s: Step, c: nat)
    requires Inv(o, w) && Enabled(w, s) && c < |Apply(o, w, s).calls|
    ensures CallOk(o, Apply(o, w, s), c)
  {
    hide FromCache, EntryOk;
    if c < |w.calls| {
      var call := w.calls[c];
      assert CallOk(o, w, c);
      if s.CheckFresh? && s.c == c {
        var hit := Within(w.entries, call.host, call.began, o.ttl);
        if hit.Some? {
          HitFromCache(o, w, call, o.ttl);
          FromCacheStays(o, w, s, call, hit.value, o.ttl);
          CacheIgnoresStage(Apply(o, w, s), call, Apply(o, w, s).calls[c], hit.value, o.ttl);
        }
      } else if s.Finish? && s.c == c && call.looked.Failed? {
        var hit := Within(w.entries, call.host, call.began, o.grace);
        if hit.Some? {
          HitFromCache(o, w, call, o.grace);
          FromCacheStays(o, w, s, call, hit.value, o.grace);
          CacheIgnoresStage(Apply(o, w, s), call, Apply(o, w, s).calls[c], hit.value, o.grace);
        }
      } else if call.stage.Returned? && call.stage.answer.Some? && !call.looked.Found? {
        FromCacheStays(o, w, s, call, call.stage.answer.value, if call.looked.NotYet? then o.ttl else o.grace);
      }
    }
  }

  lemma CacheIgnoresStage(w: World, a: Call, b: Call, answer: seq<string>, limit: int)
    requires FromCache(w, a, answer, limit) && a.host == b.host && a.began == b.began
    ensures FromCache(w, b, answer, limit)
  {
  }

  /** In every interleaving every answer is the call's own, or young enough. */
  lemma {:induction false} AnswersFresh(o: Options, ws: seq<World>, steps: seq<Step>, n: nat)
    requires Run(o, ws, steps) && n < |ws|
    ensures Inv(o, ws[n])
  {
    if n > 0 {
      hide Apply, Enabled, CallOk, EntryOk;
      AnswersFresh(o, ws, steps, n - 1);
      var w, s := ws[n - 1], steps[n - 1];
      assert Enabled(w, s) && ws[n - 1 + 1] == Apply(o, w, s);
      forall host | host in ws[n].entries ensures EntryOk(ws[n], host) { StepEntry(o, w, s, host); }
      forall c | 0 <= c < |ws[n].calls| ensures CallOk(o, ws[n], c) { StepCall(o, w, s, c); }
    }
  }

  /** A call that has not returned can always go on, and returns after at most three steps of its own. */
  lemma CallMoves(o: Options, w: World, c: nat)
    requires Inv(o, w) && c < |w.calls|
    ensures w.calls[c].stage.Begun? ==> Enabled(w, CheckFresh(c))
    ensures w.calls[c].stage.Missed? ==>
              if w.calls[c].looked.NotYet? then
                forall result :: Enabled(w, LookUp(c, result)) && Enabled(Apply(o, w, LookUp(c, result)), Finish(c))
              else Enabled(w, Finish(c))
    ensures Enabled(w, Finish(c)) ==> Apply(o, w, Finish(c)).calls[c].stage.Returned?
    ensures Enabled(w, CheckFresh(c)) ==> !Apply(o, w, CheckFresh(c)).calls[c].stage.Begun?
  {
    assert CallOk(o, w, c);
  }

  // When a call answers with an error

  /** The step stores an answer for the host. */
  predicate Stores(w: World, s: Step, host: Host) {
    s.Finish? && Enabled(w, s) && w.calls[s.c].host == host && w.calls[s.c].looked.Found?
  }

  /** The last of the first n steps that stored an answer for the host, not the one with the youngest lookup. */
  function LastStore(ws: seq<World>, steps: seq<Step>, host: Host, n: nat): (r: Option<nat>)
    requires |ws| == |steps| + 1 && n <= |steps|
    ensures r.Some? ==> r.value < n && Stores(ws[r.value], steps[r.value], host)
  {
    if n == 0 then None
    else if Stores(ws[n - 1], steps[n - 1], host) then Some(n - 1)
    else LastStore(ws, steps, host, n - 1)
  }

  lemma {:induction false} EntryIsLastStore(o: Options, ws: seq<World>, steps: seq<Step>, host: Host, n: nat)
    requires Run(o, ws, steps) && n < |ws|
    ensures var last := LastStore(ws, steps, host, n);
            && (host in ws[n].entries <==> last.Some?)
            && (last.Some? ==>
                  var call := ws[last.value].calls[steps[last.value].c];
                  ws[n].entries[host] == Entry(call.looked.prefixes, call.began))
  {
    if n > 0 {
      EntryIsLastStore(o, ws, steps, host, n - 1);
      var w, s := ws[n - 1], steps[n - 1];
      assert Enabled(w, s) && ws[n - 1 + 1] == Apply(o, w, s);
    }
  }

  /**
   In every interleaving a call that finishes answers with an error exactly when
   its own lookup failed and the answer stored last for the host, if there is one,
   was looked up the grace or longer before the call began.
   */
  lemma ErrorIff(o: Options, ws: seq<World>, steps: seq<Step>, n: nat, c: nat)
    requires Run(o, ws, steps) && n < |steps| && steps[n] == Finish(c)
    ensures c < |ws[n].calls| && c < |ws[n + 1].calls|
    ensures var call := ws[n].calls[c];
            var last := LastStore(ws, steps, call.host, n);
            ws[n + 1].calls[c].stage == Returned(None) <==>
              && call.looked.Failed?
              && (last.Some? ==> call.began - ws[last.value].calls[steps[last.value].c].began >= o.grace)
  {
    hide LastStore;
    assert Enabled(ws[n], steps[n]) && ws[n + 1] == Apply(o, ws[n], steps[n]);
    EntryIsLastStore(o, ws, steps, ws[n].calls[c].host, n);
  }

  // One call, without others in between

  const DEFAULT_TTL := 60
  const DEFAULT_GRACE := 600

  class CachingResolver {
    const ttl: int
    const grace: int
    var entries: map<Host, Entry>

    /** Limits that are not positive select the defaults, in seconds. */
    constructor (ttl: int, grace: int)
      ensures entries == map[] && this.ttl > 0 && this.grace > 0
      ensures this.ttl == (if ttl > 0 then ttl else 60) && this.grace == (if grace > 0 then grace else 600)
    {
      this.ttl := if ttl <= 0 then DEFAULT_TTL else ttl;
      this.grace := if grace <= 0 then DEFAULT_GRACE else grace;
      this.entries := map[];
    }

    method Cached(host: Host, now: int, limit: int) returns (r: Option<seq<string>>)
      ensures r == Within(entries, host, now, limit)
    {
      if host !in entries || now - entries[host].at >= limit {
        return None;
      }
      return Some(entries[host].prefixes);
    }

    /** One call is the steps Begin, CheckFresh, and if need be LookUp and Finish, of the machine. */
    method Resolve(host: Host, now: int, found: Option<seq<Addr>>, render: Addr -> string)
      returns (r: Option<seq<string>>)
      modifies this`entries
      ensures var o := Options(ttl, grace);
              var w := World(now, old(entries), []);
              var checked := Apply(o, Apply(o, w, Begin(host)), CheckFresh(0));
              if checked.calls[0].stage.Returned? then r == checked.calls[0].stage.answer && entries == checked.entries
              else
                var result := if found.Some? then Some(Normalize(found.value, render)) else None;
                var done := Apply(o, Apply(o, checked, LookUp(0, result)), Finish(0));
                done.calls[0].stage == Returned(r) && entries == done.entries
    {
      hide Normalize;
      r := Cached(host, now, ttl);
      if r.Some? {
        return;
      }
      if found.None? {
        r := Cached(host, now, grace);
        return;
      }
      var prefixes := NormalizePrefixes(found.value, render);
      entries := entries[host := Entry(prefixes, now)];
      r := Some(prefixes);
    }
  }
}
