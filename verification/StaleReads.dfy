/** What survives reads from an old version of the ConfigMap, and what does not. */
module StaleReads {
  import opened Api
  import opened PluginList
  import opened PluginForm
  import opened ConfigMapProtocol
  import opened ConfigMapRuns

  // ---------------------------------------------------------------- descent

  /** `e` has the shape of an entry of `origin` for the device. */
  ghost predicate Inherits(origin: seq<Resource>, e: Resource, device: string) {
    && Modifiable(e) && ForDevice(e, device)
    && exists i :: && 0 <= i < |origin| && ForDevice(origin[i], device)
                   && Modifiable(origin[i]) && Shape(origin[i]) == Shape(e)
  }

  /** The list is well formed and all its entries inherit from `origin`. */
  ghost predicate Descends(origin: seq<Resource>, list: seq<Resource>) {
    && AllFormed(map[], list)
    && forall j, device :: 0 <= j < |list| && ForDevice(list[j], device) ==> Inherits(origin, list[j], device)
  }

  ghost predicate TemplatesDescend(origin: seq<Resource>, templates: Templates) {
    forall device :: device in templates ==> Inherits(origin, templates[device], device)
  }

  lemma OriginDescends(origin: seq<Resource>)
    requires AllFormed(map[], origin)
    ensures Descends(origin, origin)
  {
    forall j, device | 0 <= j < |origin| && ForDevice(origin[j], device) ensures Inherits(origin, origin[j], device) {
      assert Formed(map[], origin, device);
    }
  }

  /** Entries inheriting from a well-formed origin have one shape. */
  lemma InheritedShape(origin: seq<Resource>, a: Resource, b: Resource, device: string)
    requires AllFormed(map[], origin) && Inherits(origin, a, device) && Inherits(origin, b, device)
    ensures Shape(a) == Shape(b)
  {
    assert Formed(map[], origin, device);
  }

  /** Any list and any templates that descend from the same origin fit together. */
  lemma DescendantsFit(origin: seq<Resource>, templates: Templates, list: seq<Resource>)
    requires AllFormed(map[], origin) && Descends(origin, list) && TemplatesDescend(origin, templates)
    ensures AllFormed(templates, list)
  {
    forall device ensures Formed(templates, list, device) {
      assert Formed(map[], list, device);
      if device in templates {
        forall i | 0 <= i < |list| && ForDevice(list[i], device) ensures Shape(list[i]) == Shape(templates[device]) {
          InheritedShape(origin, list[i], templates[device], device);
        }
      }
    }
  }

  lemma RememberedDescends(origin: seq<Resource>, templates: Templates, list: seq<Resource>, seen: string)
    requires Descends(origin, list) && TemplatesDescend(origin, templates)
    ensures TemplatesDescend(origin, Remember(templates, list, seen))
  {
  }

  lemma EditedDescends(origin: seq<Resource>, templates: Templates, list: seq<Resource>, r: Request)
    requires AllFormed(map[], origin) && Descends(origin, list) && TemplatesDescend(origin, templates) && Plain(r)
    ensures Descends(origin, After(templates, list, r))
  {
    DescendantsFit(origin, templates, list);
    EditKeepsForm(templates, list, r);
    RememberedDescends(origin, templates, list, r.device);
    var list' := After(templates, list, r);
    forall device ensures Formed(map[], list', device) {
      assert Formed(Remember(templates, list, r.device), list', device);
    }
    if Edited(templates, list, r).Some? {
      assert Formed(templates, list, r.device);
      var i, from := WhatIsEdited(templates, list, r);
      ModifiedKeepsShape(from, r);
      assert Inherits(origin, from, r.device);
      assert Inherits(origin, Modified(from, r), r.device);
    }
  }

  // ---------------------------------------------------------------- the form survives

  /** Every version of the node's key, what its daemon loaded and its templates descend from `origin`. */
  ghost predicate KeyDescends(s: System, n: string, origin: seq<Resource>) {
    && AllFormed(map[], origin) && n in s.locals
    && (forall v :: 0 <= v < |s.history| ==> Descends(origin, ListOf(Origin(s.history[v], n))))
    && TemplatesDescend(origin, s.locals[n].templates)
    && (s.locals[n].loaded.Some? ==> Descends(origin, ListOf(s.locals[n].loaded.value)))
  }

  lemma StepKeepsDescent(s: System, e: Event, s': System, n: string, origin: seq<Resource>)
    requires Sound(s) && Step(s, e, s') && KeyDescends(s, n, origin)
    requires e.Write? ==> Plain(e.r)
    ensures KeyDescends(s', n, origin)
  {
    StepChangesOnlyOwnKey(s, e, s');
    KeysDiffer(n, e.node);
    if e.node != n {
      assert Get(Last(s'.history), OwnKey(n)) == Get(Last(s.history), OwnKey(n));
      assert Get(Last(s'.history), SHARED_KEY) == Get(Last(s.history), SHARED_KEY);
      assert Origin(Last(s'.history), n) == Origin(Last(s.history), n);
    } else if e.Write? {
      var list := s.locals[n].loaded.value.list;
      EditedDescends(origin, s.locals[n].templates, list, e.r);
      RememberedDescends(origin, s.locals[n].templates, list, e.r.device);
    }
  }

  /** Under any interleaving, with any reads, however old, and through restarts: every version of
      every node's list is well formed if the list it came from was. */
  lemma {:induction false} EveryVersionIsFormed(ss: seq<System>, es: seq<Event>, n: string, i: nat, v: nat)
    requires Run(ss, es) && i < |ss| && Sound(ss[0]) && |ss[0].history| == 1
    requires n in ss[0].locals && ss[0].locals[n] == Local(map[], None)
    requires forall e :: e in es && e.Write? ==> Plain(e.r)
    requires AllFormed(map[], ListOf(Origin(ss[0].history[0], n)))
    requires v < |ss[i].history| && OwnKey(n) in ss[i].history[v]
    ensures AllFormed(map[], ListOf(ss[i].history[v][OwnKey(n)]))
    ensures n in ss[i].locals && AllFormed(ss[i].locals[n].templates, ListOf(ss[i].history[v][OwnKey(n)]))
  {
    var origin := ListOf(Origin(ss[0].history[0], n));
    DescentOverRun(ss, es, n, i);
    DescendantsFit(origin, ss[i].locals[n].templates, ListOf(Origin(ss[i].history[v], n)));
  }

  lemma {:induction false} DescentOverRun(ss: seq<System>, es: seq<Event>, n: string, i: nat)
    requires Run(ss, es) && i < |ss| && Sound(ss[0]) && |ss[0].history| == 1
    requires n in ss[0].locals && ss[0].locals[n] == Local(map[], None)
    requires forall e :: e in es && e.Write? ==> Plain(e.r)
    requires AllFormed(map[], ListOf(Origin(ss[0].history[0], n)))
    ensures KeyDescends(ss[i], n, ListOf(Origin(ss[0].history[0], n)))
  {
    var origin := ListOf(Origin(ss[0].history[0], n));
    if i == 0 {
      OriginDescends(origin);
    } else {
      DescentOverRun(ss, es, n, i - 1);
      RunIsSound(ss, es, i - 1);
      assert es[i - 1] in es;
      StepKeepsDescent(ss[i - 1], es[i - 1], ss[i], n, origin);
    }
  }

  // ---------------------------------------------------------------- edits may be lost

  /** Over every run, with any reads: after a node's write for another PF was accepted, a PF is
      served exactly if it was in the version the node had loaded. */
  lemma AcceptedWriteKeepsIff(ss: seq<System>, es: seq<Event>, n: string, i: nat, other: Request, v: nat, r: Request)
    requires Run(ss, es) && i < |es| && Sound(ss[0]) && |ss[0].history| == 1
    requires n in ss[0].locals && ss[0].locals[n] == Local(map[], None)
    requires forall e :: e in es && e.Write? ==> Plain(e.r)
    requires AllFormed(map[], ListOf(Origin(ss[0].history[0], n)))
    requires es[i] == Write(n, other, v, true) && Plain(r) && other.pci != r.pci
    requires n in ss[i].locals && ss[i].locals[n].loaded.Some? && ss[i].locals[n].loaded.value.Config?
    requires Edited(ss[i].locals[n].templates, ss[i].locals[n].loaded.value.list, other).Some?
    ensures Served(ListOf(Origin(Last(ss[i + 1].history), n)), r) <==> Served(ss[i].locals[n].loaded.value.list, r)
  {
    var origin, local := ListOf(Origin(ss[0].history[0], n)), ss[i].locals[n];
    DescentOverRun(ss, es, n, i);
    DescendantsFit(origin, local.templates, local.loaded.value.list);
    assert Formed(local.templates, local.loaded.value.list, other.device);
    assert es[i] in es;
    EditKeepsServed(State(local.templates, local.loaded.value.list), r, other);
    RunIsSound(ss, es, i);
    WrittenIsEdited(ss[i], es[i], ss[i + 1]);
  }

  /** What an accepted write leaves under the node's key. */
  lemma WrittenIsEdited(s: System, e: Event, s': System)
    requires Sound(s) && Step(s, e, s') && e.Write? && e.landed
    requires s.locals[e.node].loaded.Some? && s.locals[e.node].loaded.value.Config?
    requires Edited(s.locals[e.node].templates, s.locals[e.node].loaded.value.list, e.r).Some?
    ensures ListOf(Origin(Last(s'.history), e.node)) ==
            After(s.locals[e.node].templates, s.locals[e.node].loaded.value.list, e.r)
  {
  }

  /** The first edit for a device claims its untagged entry. */
  lemma UntaggedIsClaimed(templates: Templates, entry: Resource, r: Request)
    requires Modifiable(entry) && ForDevice(entry, r.device)
    requires TagOf(entry) == None && entry.selectors.value.addresses == None
    ensures Edited(templates, [entry], r) == Some([Modified(entry, r)])
  {
    assert Claimable([entry][0], r);
    assert [entry][0 := Modified(entry, r)] == [Modified(entry, r)];
  }

  lemma LoadHappens(h: seq<ConfigMap>, node: string, v: nat, templates: Templates)
    requires v < |h| && OwnKey(node) in h[v]
    ensures Step(System(h, map[node := Local(templates, None)]), Load(node, v, false),
                 System(h, map[node := Local(templates, Some(h[v][OwnKey(node)]))]))
  {
  }

  lemma WriteHappens(h: seq<ConfigMap>, node: string, templates: Templates, entry: Resource, r: Request)
    requires h != [] && OwnKey(node) in Last(h) && (r.device in templates ==> templates[r.device] == entry)
    requires Modifiable(entry) && ForDevice(entry, r.device)
    requires TagOf(entry) == None && entry.selectors.value.addresses == None
    ensures Step(System(h, map[node := Local(templates, Some(Config([entry], "")))]), Write(node, r, |h| - 1, true),
                 System(h + [Last(h)[OwnKey(node) := Config([Modified(entry, r)], "")]],
                        map[node := Local(templates[r.device := entry], None)]))
  {
    UntaggedIsClaimed(templates, entry, r);
    assert r.device in templates ==> templates[r.device := entry] == templates;
    assert Remember(templates, [entry], r.device) == templates[r.device := entry];
  }

  /** A node adds one PF to its list, then loads the old version again and adds another: both
      writes are accepted, and the first PF is no longer served. */
  lemma StaleReadLosesEdit(node: string, first: Request, second: Request, name: string)
    returns (ss: seq<System>, es: seq<Event>)
    requires first.device == second.device && first.pci != second.pci && Plain(first) && Plain(second)
    ensures Run(ss, es) && Sound(ss[0]) && |es| == 4 && |ss[0].history| == 1 && node in ss[0].locals
    ensures AllFormed(map[], ListOf(Origin(ss[0].history[0], node)))
    ensures es[1] == Write(node, first, 0, true) && es[3] == Write(node, second, 1, true)
    ensures var own := OwnKey(node);
            && |ss[4].history| == 3 && own in ss[4].history[1] && own in ss[4].history[2]
            && Served(ListOf(ss[4].history[1][own]), first)
            && !Served(ListOf(ss[4].history[2][own]), first) && Served(ListOf(ss[4].history[2][own]), second)
  {
    var own := OwnKey(node);
    var entry := Resource(Some(name), Some(Selectors([Some(first.device)], None, "")), Some(Star(None, "")), "");
    var original := Config([entry], "");
    var one, two := Config([Modified(entry, first)], ""), Config([Modified(entry, second)], "");
    var t := map[first.device := entry];
    var h0 := [map[own := original]];
    var h1 := h0 + [map[own := one]];
    var h2 := h1 + [map[own := two]];
    FreshListIsFormed([entry]);
    ModifiedKeepsShape(entry, first);
    ModifiedKeepsShape(entry, second);
    assert ServedAt(one.list, first, 0) && ServedAt(two.list, second, 0);
    var s0 := System(h0, map[node := Local(map[], None)]);
    var s1 := System(h0, map[node := Local(map[], Some(original))]);
    var s2 := System(h1, map[node := Local(t, None)]);
    var s3 := System(h1, map[node := Local(t, Some(original))]);
    var s4 := System(h2, map[node := Local(t, None)]);
    var e0, e1 := Load(node, 0, false), Write(node, first, 0, true);
    var e2, e3 := Load(node, 0, false), Write(node, second, 1, true);
    assert Last(h0)[own := one] == map[own := one] && Last(h1)[own := two] == map[own := two];
    LoadHappens(h0, node, 0, map[]);
    WriteHappens(h0, node, map[], entry, first);
    LoadHappens(h1, node, 0, t);
    WriteHappens(h1, node, t, entry, second);
    assert map[][first.device := entry] == t && t[second.device := entry] == t;
    ss, es := [s0, s1, s2, s3, s4], [e0, e1, e2, e3];
  }
}
