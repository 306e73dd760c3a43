/** From the code to the runs: what a daemon does, turn by turn, is a run of the interleaved
    system, in which the writes of all other nodes are arbitrary. */
module ConfigMapTurns {
  import opened Api
  import opened PluginList
  import Form = PluginForm
  import opened ConfigMapProtocol
  import opened ConfigMapRuns

  /** Some run over the events `es` leads from `s` to `s'`, in which `node` sees its own key as it
      is whenever it loads. */
  ghost predicate Leads(node: string, s: System, es: seq<Event>, s': System) {
    exists ss :: Run(ss, es) && Joins(node, ss, es, s, s')
  }

  ghost predicate Joins(node: string, ss: seq<System>, es: seq<Event>, s: System, s': System)
    requires |ss| == |es| + 1
  {
    ss[0] == s && ss[|es|] == s' && forall k :: 0 <= k < |es| ==> SeesOwnKey(ss[k], es[k], node)
  }

  lemma NoEventLeads(node: string, s: System)
    ensures Leads(node, s, [], s)
  {
    assert Run([s], []) && Joins(node, [s], [], s, s);
  }

  lemma EventLeads(node: string, s: System, es: seq<Event>, t: System, e: Event, u: System)
    requires Leads(node, s, es, t) && Step(t, e, u) && SeesOwnKey(t, e, node)
    ensures Leads(node, s, es + [e], u)
  {
    var ss :| Run(ss, es) && Joins(node, ss, es, s, t);
    var longer, events := ss + [u], es + [e];
    forall k | 0 <= k < |events|
      ensures Step(longer[k], events[k], longer[k + 1]) && SeesOwnKey(longer[k], events[k], node)
    {
      if k < |es| { assert Step(ss[k], es[k], ss[k + 1]); }
    }
    assert Run(longer, events) && Joins(node, longer, events, s, u);
  }

  /** A run over some events ends in a step over the last of them. */
  lemma LeadsLast(node: string, s: System, es: seq<Event>, u: System) returns (t: System)
    requires Leads(node, s, es, u) && es != []
    ensures Leads(node, s, es[..|es| - 1], t)
    ensures Step(t, es[|es| - 1], u) && SeesOwnKey(t, es[|es| - 1], node)
  {
    var ss :| Run(ss, es) && Joins(node, ss, es, s, u);
    var n := |es| - 1;
    t := ss[n];
    forall k | 0 <= k < n ensures Step(ss[..n + 1][k], es[..n][k], ss[..n + 1][k + 1]) {
      assert Step(ss[k], es[k], ss[k + 1]);
    }
    assert Run(ss[..n + 1], es[..n]) && Joins(node, ss[..n + 1], es[..n], s, t);
    assert Step(ss[n], es[n], ss[n + 1]);
  }

  lemma {:induction false} LeadsConcat(node: string, s: System, a: seq<Event>, t: System, b: seq<Event>, u: System)
    requires Leads(node, s, a, t) && Leads(node, t, b, u)
    ensures Leads(node, s, a + b, u)
  {
    if b == [] {
      assert a + b == a;
    } else {
      var n := |b| - 1;
      var v := LeadsLast(node, t, b, u);
      LeadsConcat(node, s, a, t, b[..n], v);
      EventLeads(node, s, a + b[..n], v, b[n], u);
      assert a + b == a + b[..n] + [b[n]];
    }
  }

  lemma OthersBefore(node: string, h: seq<ConfigMap>, h': seq<ConfigMap>)
    requires ByOthers(node, h, h') && |h'| > |h|
    ensures ByOthers(node, h, h'[..|h'| - 1]) && FollowsWithout(node, Last(h'[..|h'| - 1]), Last(h'))
  {
    var before := h'[..|h'| - 1];
    forall i | |h| <= i < |before| ensures FollowsWithout(node, before[i - 1], before[i]) {
      assert FollowsWithout(node, h'[i - 1], h'[i]);
    }
    assert FollowsWithout(node, h'[|h'| - 2], h'[|h'| - 1]);
  }

  /** Writes of other nodes are steps of the system, whatever they wrote. */
  lemma {:induction false} OthersLead(node: string, h: seq<ConfigMap>, h': seq<ConfigMap>, l: Local)
    returns (es: seq<Event>)
    requires ByOthers(node, h, h')
    ensures Leads(node, System(h, map[node := l]), es, System(h', map[node := l]))
    ensures Own(es, node) == []
    decreases |h'|
  {
    if |h'| == |h| {
      assert h' == h;
      es := [];
      NoEventLeads(node, System(h, map[node := l]));
    } else {
      var before, last := h'[..|h'| - 1], h'[|h'| - 1];
      OthersBefore(node, h, h');
      es := OthersLead(node, h, before, l);
      var other :| other != node && ChangedBy(other, Last(before), last);
      OnlyThatKey(other, Last(before), last);
      var e := Foreign(other, last[OwnKey(other)]);
      assert h' == before + [last];
      EventLeads(node, System(h, map[node := l]), es, System(before, map[node := l]), e, System(h', map[node := l]));
      OwnConcat(es, [e], node);
      es := es + [e];
    }
  }

  lemma OnlyThatKey(node: string, a: ConfigMap, b: ConfigMap)
    requires ChangedBy(node, a, b)
    ensures b == a[OwnKey(node) := b[OwnKey(node)]]
  {
    forall k | k != OwnKey(node) ensures (k in b <==> k in a) && (k in a ==> b[k] == a[k]) {
      assert Get(b, k) == Get(a, k);
    }
  }

  /** The load of the turn saw the node's own key as it was. */
  ghost predicate Current(node: string, t: Turn) {
    t.v < |t.at| ==> Get(t.at[t.v], OwnKey(node)) == Get(Last(t.at), OwnKey(node))
  }

  /** The turn got as far as editing the list. */
  predicate HasEdited(t: Turn) {
    t.loaded.Some? && t.loaded.value.Config?
  }

  /** The edit was written, or needed no writing. */
  predicate Landed(r: Request, templates: Templates, t: Turn) {
    HasEdited(t) && (Edited(templates, t.loaded.value.list, r).Some? ==> t.landed2)
  }

  /** What the turn means for the node's own list. */
  function EventsOf(r: Request, templates: Templates, t: Turn): seq<Form.ListEvent> {
    if !HasEdited(t) then [] else [if Landed(r, templates, t) then Form.Edit(r) else Form.Refused(r)]
  }

  lemma LoadLeads(node: string, h: seq<ConfigMap>, templates: Templates, l0: Option<Data>, t: Turn)
    returns (es: seq<Event>)
    requires ByOthers(node, h, t.at) && LoadStep(t.at, t.mid, node, t.v, t.landed, t.loaded) && Current(node, t)
    ensures Leads(node, System(h, map[node := Local(templates, l0)]), es,
                  System(t.mid, map[node := Local(templates, t.loaded)]))
    ensures Own(es, node) == []
  {
    var s, idle := System(h, map[node := Local(templates, l0)]), Local(templates, l0);
    es := OthersLead(node, h, t.at, idle);
    var load := Load(node, t.v, t.landed);
    var loaded := System(t.mid, map[node := Local(templates, t.loaded)]);
    EventLeads(node, s, es, System(t.at, map[node := idle]), load, loaded);
    OwnConcat(es, [load], node);
    es := es + [load];
  }

  /** A daemon's turn is a load, a write and whatever other nodes write in between. */
  lemma TurnLeads(node: string, r: Request, h: seq<ConfigMap>, templates: Templates, l0: Option<Data>, t: Turn,
                  h': seq<ConfigMap>, templates': Templates) returns (es: seq<Event>, l1: Option<Data>)
    requires TurnOf(node, r, h, templates, t, h', templates') && Current(node, t)
    ensures Leads(node, System(h, map[node := Local(templates, l0)]), es,
                  System(h', map[node := Local(templates', l1)]))
    ensures Own(es, node) == EventsOf(r, templates, t)
  {
    es := LoadLeads(node, h, templates, l0, t);
    l1 := t.loaded;
    if HasEdited(t) {
      var more := WriteLeads(node, r, templates, t, h', templates');
      LeadsConcat(node, System(h, map[node := Local(templates, l0)]), es,
                  System(t.mid, map[node := Local(templates, t.loaded)]), more,
                  System(h', map[node := Local(templates', None)]));
      OwnConcat(es, more, node);
      es, l1 := es + more, None;
    }
  }

  lemma WriteLeads(node: string, r: Request, templates: Templates, t: Turn, h': seq<ConfigMap>, templates': Templates)
    returns (es: seq<Event>)
    requires HasEdited(t)
    requires var Config(list, rest) := t.loaded.value;
             var edited := Edited(templates, list, r);
             && templates' == Remember(templates, list, r.device)
             && if edited.Some?
                then && ByOthers(node, t.mid, t.at2)
                     && WriteStep(t.at2, h', node, t.v2, t.landed2, Config(edited.value, rest))
                else h' == t.mid
    ensures Leads(node, System(t.mid, map[node := Local(templates, t.loaded)]), es,
                  System(h', map[node := Local(templates', None)]))
    ensures Own(es, node) == EventsOf(r, templates, t)
  {
    var busy, edited := Local(templates, t.loaded), Edited(templates, t.loaded.value.list, r);
    var s, at2 := System(t.mid, map[node := busy]), t.mid;
    es := [];
    NoEventLeads(node, s);
    if edited.Some? {
      at2 := t.at2;
      es := OthersLead(node, t.mid, at2, busy);
    }
    var write := Write(node, r, t.v2, Landed(r, templates, t));
    EventLeads(node, s, es, System(at2, map[node := busy]), write, System(h', map[node := Local(templates', None)]));
    OwnConcat(es, [write], node);
    es := es + [write];
  }

  /** The turns a daemon takes for its requests, in a history other nodes write to as well. */
  ghost predicate AllCurrent(node: string, ts: seq<Turn>) {
    forall k :: 0 <= k < |ts| ==> Current(node, ts[k])
  }

  function EventsOfAll(rs: seq<Request>, ts: seq<Turn>, memories: seq<Templates>): seq<Form.ListEvent>
    requires |rs| == |ts| && |memories| == |rs| + 1
  {
    if rs == [] then []
    else
      var n := |rs| - 1;
      EventsOfAll(rs[..n], ts[..n], memories[..n + 1]) + EventsOf(rs[n], memories[n], ts[n])
  }

  /** All of a daemon's turns together are a run of the system. */
  lemma {:induction false} TurnsLead(node: string, rs: seq<Request>, ts: seq<Turn>, worlds: seq<seq<ConfigMap>>,
                                     memories: seq<Templates>) returns (es: seq<Event>, l: Option<Data>)
    requires TurnsOf(node, rs, ts, worlds, memories) && AllCurrent(node, ts)
    ensures Leads(node, System(worlds[0], map[node := Local(memories[0], None)]), es,
                  System(worlds[|rs|], map[node := Local(memories[|rs|], l)]))
    ensures Own(es, node) == EventsOfAll(rs, ts, memories)
  {
    if rs == [] {
      es, l := [], None;
      NoEventLeads(node, System(worlds[0], map[node := Local(memories[0], None)]));
    } else {
      var n := |rs| - 1;
      var l0;
      es, l0 := TurnsLead(node, rs[..n], ts[..n], worlds[..n + 1], memories[..n + 1]);
      var more;
      more, l := TurnLeads(node, rs[n], worlds[n], memories[n], l0, ts[n], worlds[n + 1], memories[n + 1]);
      LeadsConcat(node, System(worlds[0], map[node := Local(memories[0], None)]), es,
                  System(worlds[n], map[node := Local(memories[n], l0)]), more,
                  System(worlds[n + 1], map[node := Local(memories[n + 1], l)]));
      OwnConcat(es, more, node);
      es := es + more;
    }
  }

  /** So the turns of a daemon that has just started leave the node's key as its own history of
      edits would, whatever other nodes wrote meanwhile. */
  lemma TurnsAsIfAlone(node: string, rs: seq<Request>, ts: seq<Turn>, worlds: seq<seq<ConfigMap>>,
                       memories: seq<Templates>)
    requires TurnsOf(node, rs, ts, worlds, memories) && AllCurrent(node, ts)
    requires Orderly(worlds[0]) && memories[0] == map[]
    ensures var origin := Origin(Last(worlds[0]), node);
            var alone := Form.History(Form.State(map[], ListOf(origin)), EventsOfAll(rs, ts, memories));
            && ListOf(Origin(Last(worlds[|rs|]), node)) == alone.list && memories[|rs|] == alone.templates
            && (OwnKey(node) in Last(worlds[|rs|]) ==> Last(worlds[|rs|])[OwnKey(node)] == WithList(origin, alone.list))
  {
    var es, l := TurnsLead(node, rs, ts, worlds, memories);
    var s, s' := System(worlds[0], map[node := Local(memories[0], None)]),
                 System(worlds[|rs|], map[node := Local(memories[|rs|], l)]);
    var ss :| Run(ss, es) && Joins(node, ss, es, s, s');
    EachNodeAsIfAlone(ss, es, node, |es|);
    SharedKeyNeverChanges(ss, es, |es|);
    assert es[..|es|] == es;
    RefinedList(ss[|es|], Last(worlds[0]), node, Own(es, node));
  }

  lemma {:induction false} AllLandedAreEdits(rs: seq<Request>, ts: seq<Turn>, memories: seq<Templates>)
    requires |rs| == |ts| && |memories| == |rs| + 1
    requires forall k :: 0 <= k < |rs| ==> Landed(rs[k], memories[k], ts[k])
    ensures EventsOfAll(rs, ts, memories) == Edits(rs)
  {
    if rs != [] {
      AllLandedAreEdits(rs[..|rs| - 1], ts[..|rs| - 1], memories[..|rs|]);
    }
  }

  /** And if all its edits were accepted, every request whose device is known is served. */
  lemma TurnsServe(node: string, rs: seq<Request>, ts: seq<Turn>, worlds: seq<seq<ConfigMap>>,
                   memories: seq<Templates>, k: nat)
    requires TurnsOf(node, rs, ts, worlds, memories) && AllCurrent(node, ts)
    requires Orderly(worlds[0]) && memories[0] == map[] && Form.Separate(rs) && k < |rs|
    requires forall j :: 0 <= j < |rs| ==> Landed(rs[j], memories[j], ts[j])
    requires var list := ListOf(Origin(Last(worlds[0]), node));
             Form.AllFormed(map[], list) && Form.Known(Form.State(map[], list), rs[k].device)
    ensures Form.Served(ListOf(Origin(Last(worlds[|rs|]), node)), rs[k])
  {
    var start := Form.State(map[], ListOf(Origin(Last(worlds[0]), node)));
    TurnsAsIfAlone(node, rs, ts, worlds, memories);
    AllLandedAreEdits(rs, ts, memories);
    EditsAreEditAll(start, rs);
    Form.EditAllServes(start, rs, k);
  }
  // ---------------------------------------------------------------- what the daemon achieves

  /** Loading, where nothing stops it, finds the node's list, if that can be parsed. */
  lemma LoadFindsOrigin(node: string, h: seq<ConfigMap>, t: Turn)
    requires Orderly(h) && Origin(Last(h), node).Config? && ByOthers(node, h, t.at)
    requires LoadStep(t.at, t.mid, node, t.v, t.landed, t.loaded) && Current(node, t)
    ensures Orderly(t.mid) && Origin(Last(t.mid), node).Config?
    ensures OwnKey(node) in t.at[t.v] || SHARED_KEY in t.at[t.v]
    ensures t.loaded.Some? ==> t.loaded.value.Config? && OwnKey(node) in Last(t.mid)
  {
    OthersKeep(node, h, t.at);
    KeysDiffer(node, node);
    KeysPersist(t.at, |h| - 1, |t.at| - 1);
    KeysPersist(t.at, t.v, |t.at| - 1);
    assert Get(t.at[t.v], OwnKey(node)) == Get(Last(t.at), OwnKey(node));
    if t.landed {
      CreationIsOrderly(t.at, node, t.at[t.v][SHARED_KEY]);
    }
  }

  /** A turn leaves a list that can be parsed, and if nothing stopped it, its edit is in place. */
  lemma SmoothTurnLands(node: string, r: Request, h: seq<ConfigMap>, templates: Templates, t: Turn,
                        h': seq<ConfigMap>, templates': Templates)
    requires TurnOf(node, r, h, templates, t, h', templates') && Current(node, t)
    requires Orderly(h) && Origin(Last(h), node).Config?
    ensures Orderly(h') && Origin(Last(h'), node).Config?
    ensures Smooth(node, r, templates, t) ==> Landed(r, templates, t)
  {
    LoadFindsOrigin(node, h, t);
    if HasEdited(t) && Edited(templates, t.loaded.value.list, r).Some? {
      OthersKeep(node, t.mid, t.at2);
      KeysDiffer(node, node);
      KeysPersist(t.at2, |t.mid| - 1, |t.at2| - 1);
      if t.landed2 {
        CreationIsOrderly(t.at2, node, Last(h')[OwnKey(node)]);
      }
    }
  }

  lemma {:induction false} SmoothTurnsLand(node: string, rs: seq<Request>, ts: seq<Turn>, worlds: seq<seq<ConfigMap>>,
                                           memories: seq<Templates>, n: nat)
    requires TurnsOf(node, rs, ts, worlds, memories) && AllCurrent(node, ts) && AllSmooth(node, rs, ts, memories)
    requires Orderly(worlds[0]) && Origin(Last(worlds[0]), node).Config? && n <= |rs|
    ensures Orderly(worlds[n]) && Origin(Last(worlds[n]), node).Config?
    ensures forall k :: 0 <= k < n ==> Landed(rs[k], memories[k], ts[k])
  {
    if n > 0 {
      SmoothTurnsLand(node, rs, ts, worlds, memories, n - 1);
      SmoothTurnLands(node, rs[n - 1], worlds[n - 1], memories[n - 1], ts[n - 1], worlds[n], memories[n]);
    }
  }

  /** What handling the physical functions `rs` of a node achieves: if the daemon has just started, no
      call failed and every load saw the node's own key as it was, then under the node's key every
      physical function that asks for a resource name, and whose device is known, is served. */
  lemma AllNamedAreServed(node: string, rs: seq<Request>, ts: seq<Turn>, worlds: seq<seq<ConfigMap>>,
                          memories: seq<Templates>, r: Request)
    requires TurnsOf(node, Named(rs), ts, worlds, memories)
    requires AllCurrent(node, ts) && AllSmooth(node, Named(rs), ts, memories)
    requires Orderly(worlds[0]) && memories[0] == map[] && Form.Separate(Named(rs))
    requires var origin := Origin(Last(worlds[0]), node);
             && origin.Config? && Form.AllFormed(map[], origin.list)
             && Form.Known(Form.State(map[], origin.list), r.device)
    requires r in rs && r.name != ""
    ensures Form.Served(ListOf(Origin(Last(worlds[|ts|]), node)), r)
  {
    NamedAreAsked(rs, r);
    var k :| 0 <= k < |Named(rs)| && Named(rs)[k] == r;
    SmoothTurnsLand(node, Named(rs), ts, worlds, memories, |Named(rs)|);
    TurnsServe(node, Named(rs), ts, worlds, memories, k);
  }
}
