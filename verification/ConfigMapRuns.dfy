/** Runs of many daemons over the one ConfigMap, their steps interleaved in any way. */
module ConfigMapRuns {
  import opened Api
  import opened PluginList
  import Form = PluginForm
  import opened ConfigMapProtocol

  /** All versions of the ConfigMap, and what each node's daemon has in memory. */
  datatype System = System(history: seq<ConfigMap>, locals: map<string, Local>)

  datatype Event =
    | Load(node: string, v: nat, landed: bool)
    // edits what was loaded; `landed` also if nothing is to be written
    | Write(node: string, r: Request, v: nat, landed: bool)
    | Restarted(node: string)
    | Foreign(node: string, data: Data)   // a writer of another node's key, of which no more is known

  ghost predicate Step(s: System, e: Event, s': System) {
    if e.Foreign? then ForeignStep(s, e, s') else OwnStep(s, e, s')
  }

  ghost predicate ForeignStep(s: System, e: Event, s': System)
    requires e.Foreign?
  {
    && e.node !in s.locals && s.history != []
    && s' == s.(history := s.history + [Last(s.history)[OwnKey(e.node) := e.data]])
  }

  ghost predicate OwnStep(s: System, e: Event, s': System)
    requires !e.Foreign?
  {
    && e.node in s.locals && e.node in s'.locals
    && s'.locals == s.locals[e.node := s'.locals[e.node]]
    && var before, after := s.locals[e.node], s'.locals[e.node];
       match e
       case Load(node, v, landed) =>
         && after.templates == before.templates
         && LoadStep(s.history, s'.history, node, v, landed, after.loaded)
       case Write(node, r, v, landed) =>
         && before.loaded.Some? && before.loaded.value.Config?
         && var Config(list, rest) := before.loaded.value;
            && after == Local(Remember(before.templates, list, r.device), None)
            && var edited := Edited(before.templates, list, r);
               if edited.Some? then WriteStep(s.history, s'.history, node, v, landed, Config(edited.value, rest))
               else s'.history == s.history
       case Restarted(_) => s'.history == s.history && after == Local(map[], None)
  }

  ghost predicate Run(ss: seq<System>, es: seq<Event>) {
    && |ss| == |es| + 1
    && forall i :: 0 <= i < |es| ==> Step(ss[i], es[i], ss[i + 1])
  }

  // ---------------------------------------------------------------- whose key changes

  /** Versions follow each other in order, and who has loaded something has a key by now. */
  ghost predicate Sound(s: System) {
    && Orderly(s.history)
    && forall n :: n in s.locals && s.locals[n].loaded.Some? ==> OwnKey(n) in Last(s.history)
  }

  /** The shared key and the keys of other nodes are as before. */
  ghost predicate OnlyOwn(node: string, a: ConfigMap, b: ConfigMap) {
    && (forall k :: k != OwnKey(node) ==> Get(b, k) == Get(a, k))
    && (OwnKey(node) in a ==> OwnKey(node) in b)
  }

  /** Whatever versions it reads, a daemon changes nothing but its own key: an update derived from
      a version without that key is refused. */
  lemma StepChangesOnlyOwnKey(s: System, e: Event, s': System)
    requires Sound(s) && Step(s, e, s')
    ensures Sound(s') && OnlyOwn(e.node, Last(s.history), Last(s'.history))
    ensures s'.history == s.history || s'.history == s.history + [Last(s'.history)]
  {
    if s'.history != s.history && !e.Foreign? {
      KeysPersist(s.history, e.v, |s.history| - 1);
      CreationIsOrderly(s.history, e.node, Last(s'.history)[OwnKey(e.node)]);
    }
    if e.Foreign? {
      CreationIsOrderly(s.history, e.node, e.data);
    }
    assert OnlyOwn(e.node, Last(s.history), Last(s'.history));
    forall n | n in s.locals && n != e.node && s.locals[n].loaded.Some? ensures OwnKey(n) in Last(s'.history) {
      KeysDiffer(n, e.node);
      assert Get(Last(s'.history), OwnKey(n)) == Get(Last(s.history), OwnKey(n));
    }
    if e.Load? && s'.locals[e.node].loaded.Some? {
      KeysPersist(s.history, e.v, |s.history| - 1);
    }
  }

  lemma {:induction false} RunIsSound(ss: seq<System>, es: seq<Event>, i: nat)
    requires Run(ss, es) && i < |ss| && Sound(ss[0])
    ensures Sound(ss[i])
  {
    if i > 0 {
      RunIsSound(ss, es, i - 1);
      StepChangesOnlyOwnKey(ss[i - 1], es[i - 1], ss[i]);
    }
  }

  /** Under any interleaving, with any reads: the shared key is never modified and no key is ever
      removed. */
  lemma {:induction false} SharedKeyNeverChanges(ss: seq<System>, es: seq<Event>, i: nat)
    requires Run(ss, es) && i < |ss| && Sound(ss[0])
    ensures Get(Last(ss[i].history), SHARED_KEY) == Get(Last(ss[0].history), SHARED_KEY)
    ensures forall k :: k in Last(ss[0].history) ==> k in Last(ss[i].history)
  {
    if i > 0 {
      SharedKeyNeverChanges(ss, es, i - 1);
      RunIsSound(ss, es, i - 1);
      StepChangesOnlyOwnKey(ss[i - 1], es[i - 1], ss[i]);
      KeysDiffer(es[i - 1].node, es[i - 1].node);
    }
  }

  // ---------------------------------------------------------------- one node's history

  /** What one more event means for node `n`. */
  function OwnEvent(e: Event, n: string): seq<Form.ListEvent> {
    if e.node != n then []
    else
      match e
      case Load(_, _, _) => []
      case Write(_, r, _, landed) => [if landed then Form.Edit(r) else Form.Refused(r)]
      case Restarted(_) => [Form.Restart]
      case Foreign(_, _) => []
  }

  /** The events of one node, as edits of a list of its own. */
  function Own(es: seq<Event>, n: string): seq<Form.ListEvent> {
    if es == [] then [] else Own(es[..|es| - 1], n) + OwnEvent(es[|es| - 1], n)
  }

  /** Where the list of node `n` comes from. */
  function Origin(m: ConfigMap, n: string): Data {
    if OwnKey(n) in m then m[OwnKey(n)] else if SHARED_KEY in m then m[SHARED_KEY] else Unparsable("")
  }

  function ListOf(d: Data): seq<Resource> {
    if d.Config? then d.list else []
  }

  function WithList(d: Data, list: seq<Resource>): Data {
    if d.Config? then d.(list := list) else d
  }

  /** Templates and list the node would have if it were alone. */
  function Alone(origin: Data, es: seq<Event>, n: string): Form.State {
    Form.History(Form.State(map[], ListOf(origin)), Own(es, n))
  }

  /** The node's key and memory are those of the private history `p`. */
  ghost predicate Refines(s: System, n: string, origin: Data, p: Form.State) {
    var own, last := OwnKey(n), Last(s.history);
    && n in s.locals && s.locals[n].templates == p.templates
    && (if own in last then last[own] == WithList(origin, p.list)
        else p.list == ListOf(origin) && (SHARED_KEY in last ==> last[SHARED_KEY] == origin))
    && (s.locals[n].loaded.Some? ==> own in last && s.locals[n].loaded.value == last[own])
  }

  /** When `n` loads, it sees its key as it is. */
  ghost predicate SeesOwnKey(s: System, e: Event, n: string) {
    e.Load? && e.node == n && e.v < |s.history| ==> Get(s.history[e.v], OwnKey(n)) == Get(Last(s.history), OwnKey(n))
  }

  function Advanced(p: Form.State, e: Event, n: string): Form.State {
    if e.node != n || e.Load? || e.Foreign? then p
    else if e.Restarted? then p.(templates := map[])
    else if e.landed then Form.EditOne(p, e.r)
    else p.(templates := Remember(p.templates, p.list, e.r.device))
  }

  lemma HistoryAppends(p: Form.State, events: seq<Form.ListEvent>, x: Form.ListEvent)
    ensures Form.History(p, events + [x]) == Form.Happens(Form.History(p, events), x)
  {
    assert (events + [x])[..|events + [x]| - 1] == events;
  }

  lemma HistoryGoesOn(p: Form.State, events: seq<Form.ListEvent>, e: Event, n: string)
    ensures Form.History(p, events + OwnEvent(e, n)) == Advanced(Form.History(p, events), e, n)
  {
    var x := OwnEvent(e, n);
    if x == [] {
      assert events + x == events;
    } else {
      assert x == [x[0]];
      HistoryAppends(p, events, x[0]);
    }
  }

  lemma AloneAdvances(origin: Data, es: seq<Event>, e: Event, n: string)
    ensures Alone(origin, es + [e], n) == Advanced(Alone(origin, es, n), e, n)
  {
    OwnAppends(es, e, n);
    HistoryGoesOn(Form.State(map[], ListOf(origin)), Own(es, n), e, n);
  }

  lemma OwnStepRefines(s: System, e: Event, s': System, origin: Data, p: Form.State)
    requires Sound(s) && Step(s, e, s') && Refines(s, e.node, origin, p) && SeesOwnKey(s, e, e.node)
    ensures Refines(s', e.node, origin, Advanced(p, e, e.node))
  {
  }

  lemma OtherStepRefines(s: System, e: Event, s': System, n: string, origin: Data, p: Form.State)
    requires Sound(s) && Step(s, e, s') && Refines(s, n, origin, p) && e.node != n
    ensures Refines(s', n, origin, p)
  {
    StepChangesOnlyOwnKey(s, e, s');
    KeysDiffer(e.node, n);
    assert Get(Last(s'.history), OwnKey(n)) == Get(Last(s.history), OwnKey(n));
    assert Get(Last(s'.history), SHARED_KEY) == Get(Last(s.history), SHARED_KEY);
  }

  /** Under any interleaving with the other daemons, a node that sees its own key as it is when it
      loads ends up with the key and the templates it would have if it were alone. */
  lemma {:induction false} EachNodeAsIfAlone(ss: seq<System>, es: seq<Event>, n: string, i: nat)
    requires Run(ss, es) && i < |ss| && Sound(ss[0])
    requires n in ss[0].locals && ss[0].locals[n] == Local(map[], None)
    requires forall k :: 0 <= k < |es| ==> SeesOwnKey(ss[k], es[k], n)
    ensures var origin := Origin(Last(ss[0].history), n);
            Refines(ss[i], n, origin, Alone(origin, es[..i], n))
  {
    var origin := Origin(Last(ss[0].history), n);
    if i > 0 {
      EachNodeAsIfAlone(ss, es, n, i - 1);
      RunIsSound(ss, es, i - 1);
      assert es[..i] == es[..i - 1] + [es[i - 1]];
      AloneAdvances(origin, es[..i - 1], es[i - 1], n);
      var p := Alone(origin, es[..i - 1], n);
      if es[i - 1].node == n {
        OwnStepRefines(ss[i - 1], es[i - 1], ss[i], origin, p);
      } else {
        OtherStepRefines(ss[i - 1], es[i - 1], ss[i], n, origin, p);
      }
    }
  }

  function Edits(rs: seq<Request>): seq<Form.ListEvent> {
    if rs == [] then [] else Edits(rs[..|rs| - 1]) + [Form.Edit(rs[|rs| - 1])]
  }

  lemma {:induction false} EditsAreEditAll(p: Form.State, rs: seq<Request>)
    ensures Form.History(p, Edits(rs)) == Form.EditAll(p, rs)
  {
    if rs != [] {
      var n := |rs| - 1;
      EditsAreEditAll(p, rs[..n]);
      assert Edits(rs)[..|Edits(rs)| - 1] == Edits(rs[..n]);
    }
  }

  lemma OwnAppends(es: seq<Event>, e: Event, n: string)
    ensures Own(es + [e], n) == Own(es, n) + OwnEvent(e, n)
  {
    assert (es + [e])[..|es + [e]| - 1] == es;
  }

  lemma Associative<T>(a: seq<T>, b: seq<T>, c: seq<T>)
    ensures a + b + c == a + (b + c)
  {
  }

  lemma {:induction false} OwnConcat(a: seq<Event>, b: seq<Event>, n: string)
    ensures Own(a + b, n) == Own(a, n) + Own(b, n)
  {
    if b == [] {
      assert a + b == a;
    } else {
      var init, e := b[..|b| - 1], b[|b| - 1];
      assert init + [e] == b;
      calc {
        Own(a + b, n);
        { Associative(a, init, [e]); }
        Own(a + init + [e], n);
        { OwnAppends(a + init, e, n); }
        Own(a + init, n) + OwnEvent(e, n);
        { OwnConcat(a, init, n); }
        Own(a, n) + Own(init, n) + OwnEvent(e, n);
        { Associative(Own(a, n), Own(init, n), OwnEvent(e, n)); }
        Own(a, n) + (Own(init, n) + OwnEvent(e, n));
        { OwnAppends(init, e, n); }
        Own(a, n) + Own(b, n);
      }
    }
  }

  lemma {:induction false} HistoryConcat(p: Form.State, a: seq<Form.ListEvent>, b: seq<Form.ListEvent>)
    ensures Form.History(p, a + b) == Form.History(Form.History(p, a), b)
  {
    if b == [] {
      assert a + b == a;
    } else {
      HistoryConcat(p, a, b[..|b| - 1]);
      assert (a + b)[..|a + b| - 1] == a + b[..|b| - 1];
    }
  }

  lemma {:induction false} OwnIsPlain(es: seq<Event>, n: string)
    requires forall e :: e in es && e.Write? ==> Form.Plain(e.r)
    ensures forall e :: e in Own(es, n) && e.Edit? ==> Form.Plain(e.r)
  {
    if es != [] {
      OwnIsPlain(es[..|es| - 1], n);
      assert es[|es| - 1] in es;
    }
  }

  lemma AloneServes(origin: Data, before: seq<Event>, round: seq<Event>, n: string, rs: seq<Request>, k: nat)
    requires forall e :: e in before && e.Write? ==> Form.Plain(e.r)
    requires Form.AllFormed(map[], ListOf(origin)) && Own(round, n) == Edits(rs) && Form.Separate(rs) && k < |rs|
    requires Form.Known(Alone(origin, before, n), rs[k].device)
    ensures Form.Served(Alone(origin, before + round, n).list, rs[k])
  {
    var start := Form.State(map[], ListOf(origin));
    OwnConcat(before, round, n);
    HistoryConcat(start, Own(before, n), Own(round, n));
    OwnIsPlain(before, n);
    Form.HistoryKeepsForm(start, Own(before, n));
    EditsAreEditAll(Alone(origin, before, n), rs);
    Form.EditAllServes(Alone(origin, before, n), rs, k);
  }

  lemma {:induction false} EmptyStaysEmpty(p: Form.State, events: seq<Form.ListEvent>)
    requires p.list == []
    ensures Form.History(p, events).list == []
  {
    if events != [] {
      EmptyStaysEmpty(p, events[..|events| - 1]);
    }
  }

  /** A node's key, or else the key it will be made from, lists what the node's history leaves. */
  lemma RefinedList(s: System, first: ConfigMap, n: string, events: seq<Form.ListEvent>)
    requires var origin := Origin(first, n);
             Refines(s, n, origin, Form.History(Form.State(map[], ListOf(origin)), events))
    requires Get(Last(s.history), SHARED_KEY) == Get(first, SHARED_KEY)
    requires OwnKey(n) in first ==> OwnKey(n) in Last(s.history)
    ensures ListOf(Origin(Last(s.history), n)) ==
            Form.History(Form.State(map[], ListOf(Origin(first, n))), events).list
  {
    if ListOf(Origin(first, n)) == [] {
      EmptyStaysEmpty(Form.State(map[], []), events);
    }
    assert SHARED_KEY in Last(s.history) <==> SHARED_KEY in first;
  }

  lemma NodeList(ss: seq<System>, es: seq<Event>, n: string, i: nat)
    requires Run(ss, es) && i < |ss| && Sound(ss[0])
    requires n in ss[0].locals && ss[0].locals[n] == Local(map[], None)
    requires forall x :: 0 <= x < |es| ==> SeesOwnKey(ss[x], es[x], n)
    ensures ListOf(Origin(Last(ss[i].history), n)) == Alone(Origin(Last(ss[0].history), n), es[..i], n).list
  {
    EachNodeAsIfAlone(ss, es, n, i);
    SharedKeyNeverChanges(ss, es, i);
    RefinedList(ss[i], Last(ss[0].history), n, Own(es[..i], n));
  }

  /** So, whatever happened `before` - earlier rounds, refused writes, restarts - and whatever the
      other nodes do: once a node's writes for the requests `rs` were all accepted, in a `round`
      of events, each request whose device is known is served by exactly one entry of its key. */
  lemma NodeIsServed(ss: seq<System>, es: seq<Event>, n: string, i: nat,
                     before: seq<Event>, round: seq<Event>, rs: seq<Request>, k: nat)
    requires Run(ss, es) && i < |ss| && Sound(ss[0]) && es[..i] == before + round
    requires n in ss[0].locals && ss[0].locals[n] == Local(map[], None)
    requires forall x :: 0 <= x < |es| ==> SeesOwnKey(ss[x], es[x], n)
    requires forall e :: e in before && e.Write? ==> Form.Plain(e.r)
    requires Form.AllFormed(map[], ListOf(Origin(Last(ss[0].history), n)))
    requires Own(round, n) == Edits(rs) && Form.Separate(rs) && k < |rs|
    requires Form.Known(Alone(Origin(Last(ss[0].history), n), before, n), rs[k].device)
    ensures Form.Served(ListOf(Origin(Last(ss[i].history), n)), rs[k])
  {
    AloneServes(Origin(Last(ss[0].history), n), before, round, n, rs, k);
    NodeList(ss, es, n, i);
  }
}
