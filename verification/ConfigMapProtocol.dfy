/** Many daemons editing one ConfigMap (pkg/daemon/daemon_vrb.go): the API server keeps every
    version, reads may be served from a cache and thus be old, and an update is accepted only if
    it was derived from the current version. */
module ConfigMapProtocol {
  import opened Api
  import opened PluginList

  /** The text under a key: a resource list ([] if there is none) and other fields, or something
      that does not parse. */
  datatype Data = Config(list: seq<Resource>, rest: Json) | Unparsable(text: string)

  type ConfigMap = map<string, Data>

  // ---------------------------------------------------------------- keys

  const SHARED_KEY := "config.json"

  function OwnKey(node: string): string {
    "config_" + node + ".json"
  }

  lemma KeysDiffer(a: string, b: string)
    ensures OwnKey(a) == OwnKey(b) ==> a == b
    ensures OwnKey(a) != SHARED_KEY
  {
    assert OwnKey(a)[6] == '_';
    assert OwnKey(a)[7..|OwnKey(a)| - 5] == a;
    assert OwnKey(b)[7..|OwnKey(b)| - 5] == b;
  }

  /** Nothing but the key of `node` differs, and it is there afterwards. */
  ghost predicate ChangedBy(node: string, a: ConfigMap, b: ConfigMap) {
    OwnKey(node) in b && forall k :: k != OwnKey(node) ==> Get(b, k) == Get(a, k)
  }

  // ---------------------------------------------------------------- histories

  /** Every version follows from the one before by some node changing its own key. */
  ghost predicate Orderly(h: seq<ConfigMap>) {
    h != [] && forall i :: 0 < i < |h| ==> Follows(h[i - 1], h[i])
  }

  ghost predicate Follows(a: ConfigMap, b: ConfigMap) {
    exists node :: ChangedBy(node, a, b)
  }

  /** From `h` to `h'` only nodes other than `node` wrote. */
  ghost predicate ByOthers(node: string, h: seq<ConfigMap>, h': seq<ConfigMap>) {
    && h != [] && h <= h'
    && forall i :: |h| <= i < |h'| ==> FollowsWithout(node, h'[i - 1], h'[i])
  }

  ghost predicate FollowsWithout(node: string, a: ConfigMap, b: ConfigMap) {
    exists other :: other != node && ChangedBy(other, a, b)
  }

  function Last(h: seq<ConfigMap>): ConfigMap {
    if h == [] then map[] else h[|h| - 1]
  }

  /** The shared key never changes, and no key is ever removed. */
  lemma {:induction false} KeysPersist(h: seq<ConfigMap>, i: nat, j: nat)
    requires Orderly(h) && i <= j < |h|
    ensures Get(h[j], SHARED_KEY) == Get(h[i], SHARED_KEY)
    ensures forall k :: k in h[i] ==> k in h[j]
    decreases j
  {
    if i < j {
      KeysPersist(h, i, j - 1);
      assert Follows(h[j - 1], h[j]);
      var node :| ChangedBy(node, h[j - 1], h[j]);
      KeysDiffer(node, node);
      forall k | k in h[i] ensures k in h[j] {
        assert k in h[j - 1];
        assert k != OwnKey(node) ==> Get(h[j], k) == Get(h[j - 1], k);
      }
    }
  }

  lemma {:induction false} OthersKeep(node: string, h: seq<ConfigMap>, h': seq<ConfigMap>)
    requires Orderly(h) && ByOthers(node, h, h')
    ensures Orderly(h') && Get(Last(h'), OwnKey(node)) == Get(Last(h), OwnKey(node))
  {
    if |h'| > |h| {
      var before := h'[..|h'| - 1];
      assert ByOthers(node, h, before) by {
        forall i | |h| <= i < |before| ensures FollowsWithout(node, before[i - 1], before[i]) {
          assert FollowsWithout(node, h'[i - 1], h'[i]);
        }
      }
      OthersKeep(node, h, before);
      assert FollowsWithout(node, h'[|h'| - 2], h'[|h'| - 1]);
      var other :| other != node && ChangedBy(other, h'[|h'| - 2], h'[|h'| - 1]);
      KeysDiffer(node, other);
      forall i | 0 < i < |h'| ensures Follows(h'[i - 1], h'[i]) {
        if i < |before| { assert Follows(before[i - 1], before[i]); }
      }
    } else {
      assert h' == h;
    }
  }

  // ---------------------------------------------------------------- steps

  /** What a daemon has in memory: templates, and the data it loaded for editing. */
  datatype Local = Local(templates: Templates, loaded: Option<Data>)

  /** Loading through version `v`: the node's own key, created from the shared one if missing. The
      creation lands only on the current version; it may land and yet be reported as failed. */
  ghost predicate LoadStep(h: seq<ConfigMap>, h': seq<ConfigMap>, node: string, v: nat, landed: bool,
                           loaded: Option<Data>)
  {
    && v < |h|
    && var own, seen := OwnKey(node), h[v];
       if landed then
         && v == |h| - 1 && own !in seen && SHARED_KEY in seen && h' == h + [seen[own := seen[SHARED_KEY]]]
         && (loaded.Some? ==> loaded.value == seen[SHARED_KEY])
       else h' == h && (loaded.Some? ==> own in seen && loaded.value == seen[own])
  }

  /** The key an update derived from `seen` goes to. */
  function Target(seen: ConfigMap, node: string): string {
    if OwnKey(node) in seen then OwnKey(node) else SHARED_KEY
  }

  /** Writing through version `v`. */
  ghost predicate WriteStep(h: seq<ConfigMap>, h': seq<ConfigMap>, node: string, v: nat, landed: bool, data: Data) {
    if landed then 0 <= v == |h| - 1 && h' == h + [h[v][Target(h[v], node) := data]] else h' == h
  }

  /** One request's turn: the load hit at `at` and left `mid`, the write hit at `at2`. */
  datatype Turn = Turn(at: seq<ConfigMap>, v: nat, landed: bool, loaded: Option<Data>,
                       mid: seq<ConfigMap>, at2: seq<ConfigMap>, v2: nat, landed2: bool)

  ghost predicate TurnOf(node: string, r: Request, h: seq<ConfigMap>, templates: Templates, t: Turn,
                         h': seq<ConfigMap>, templates': Templates)
  {
    && ByOthers(node, h, t.at) && LoadStep(t.at, t.mid, node, t.v, t.landed, t.loaded)
    && if t.loaded.Some? && t.loaded.value.Config? then
         var Config(list, rest) := t.loaded.value;
         var edited := Edited(templates, list, r);
         && templates' == Remember(templates, list, r.device)
         && if edited.Some?
            then ByOthers(node, t.mid, t.at2) && WriteStep(t.at2, h', node, t.v2, t.landed2, Config(edited.value, rest))
            else h' == t.mid
       else h' == t.mid && templates' == templates
  }

  /** What went on in the turn was not stopped by anything: it loaded the node's list if there was
      one, and whatever it had to write was accepted. */
  predicate Smooth(node: string, r: Request, templates: Templates, t: Turn) {
    && (t.loaded.None? ==> t.v < |t.at| && OwnKey(node) !in t.at[t.v] && SHARED_KEY !in t.at[t.v])
    && (t.loaded.Some? && t.loaded.value.Config? && Edited(templates, t.loaded.value.list, r).Some? ==> t.landed2)
  }

  /** The requests for physical functions that ask for a resource name. */
  function Named(rs: seq<Request>): seq<Request> {
    if rs == [] then []
    else
      var before, r := Named(rs[..|rs| - 1]), rs[|rs| - 1];
      if r.name != "" then before + [r] else before
  }

  lemma {:induction false} NamedAreAsked(rs: seq<Request>, r: Request)
    ensures r in Named(rs) <==> r in rs && r.name != ""
  {
    if rs != [] {
      var n := |rs| - 1;
      NamedAreAsked(rs[..n], r);
      assert rs == rs[..n] + [rs[n]];
    }
  }

  /** They come in the order of the list, each as often as in it. */
  lemma {:induction false} NamedKeepsOrder(a: seq<Request>, r: Request, b: seq<Request>)
    ensures Named(a + [r] + b) == Named(a) + (if r.name != "" then [r] else []) + Named(b)
  {
    if b == [] {
      assert a + [r] + b == a + [r] && (a + [r])[..|a|] == a;
    } else {
      var n := |b| - 1;
      assert (a + [r] + b)[..|a| + 1 + n] == a + [r] + b[..n];
      NamedKeepsOrder(a, r, b[..n]);
    }
  }

  lemma {:induction false} NamedGrows(rs: seq<Request>, n: nat)
    requires n <= |rs|
    ensures Named(rs[..n]) <= Named(rs)
    decreases |rs|
  {
    if n < |rs| {
      NamedGrows(rs[..|rs| - 1], n);
      assert rs[..|rs| - 1][..n] == rs[..n];
    } else {
      assert rs[..n] == rs;
    }
  }

  /** The turns of `rs`, one after the other. */
  ghost predicate TurnsOf(node: string, rs: seq<Request>, ts: seq<Turn>, worlds: seq<seq<ConfigMap>>,
                          memories: seq<Templates>)
  {
    && |ts| == |rs| && |worlds| == |memories| == |rs| + 1
    && forall k :: 0 <= k < |rs| ==>
         TurnOf(node, rs[k], worlds[k], memories[k], ts[k], worlds[k + 1], memories[k + 1])
  }

  predicate AllSmooth(node: string, rs: seq<Request>, ts: seq<Turn>, memories: seq<Templates>)
    requires |ts| == |rs| <= |memories|
  {
    forall k :: 0 <= k < |rs| ==> Smooth(node, rs[k], memories[k], ts[k])
  }

  lemma TurnsGrow(node: string, rs: seq<Request>, ts: seq<Turn>, worlds: seq<seq<ConfigMap>>, memories: seq<Templates>,
                  r: Request, t: Turn, h': seq<ConfigMap>, templates': Templates)
    requires TurnsOf(node, rs, ts, worlds, memories)
    requires TurnOf(node, r, worlds[|rs|], memories[|rs|], t, h', templates')
    ensures TurnsOf(node, rs + [r], ts + [t], worlds + [h'], memories + [templates'])
    ensures AllSmooth(node, rs, ts, memories) && Smooth(node, r, memories[|rs|], t) ==>
              AllSmooth(node, rs + [r], ts + [t], memories + [templates'])
  {
  }

  // ---------------------------------------------------------------- the daemon

  class ConfigMapServer {
    /** All versions so far, the current one last. */
    var history: seq<ConfigMap>
    ghost var errors: nat   // calls that reported an error

    constructor (initial: ConfigMap)
      ensures history == [initial]
    {
      history, errors := [initial], 0;
    }

    /** Daemons of other nodes write. */
    method Interfere(node: string)
      requires history != []
      modifies this`history
      ensures ByOthers(node, old(history), history)
    {
      var writes: int := *;
      while writes > 0
        invariant ByOthers(node, old(history), history)
      {
        var other: string, data: Data := *, *;
        if other != node {
          var next := history[|history| - 1][OwnKey(other) := data];
          assert ChangedBy(other, history[|history| - 1], next);
          history := history + [next];
        }
        writes := writes - 1;
      }
    }

    /** A read through the cache. */
    method Get() returns (ok: bool, version: nat, seen: ConfigMap)
      modifies this`errors
      ensures ok ==> version < |history| && seen == history[version]
      ensures errors == old(errors) + if ok then 0 else 1
    {
      var v: int := *;
      if 0 <= v < |history| {
        ok, version, seen := *, v, history[v];
      } else {
        ok, version, seen := false, 0, map[];
      }
      errors := errors + if ok then 0 else 1;
    }

    method Update(version: nat, data: ConfigMap) returns (ok: bool, ghost landed: bool)
      modifies this
      ensures if landed then version + 1 == |old(history)| && history == old(history) + [data]
              else history == old(history)
      ensures ok ==> landed
      ensures errors == old(errors) + if ok then 0 else 1
    {
      ok, landed := false, false;
      var reachable: bool := *;
      if reachable && version + 1 == |history| {
        history := history + [data];
        ok, landed := *, true;
      }
      errors := errors + if ok then 0 else 1;
    }
  }

  class VrbConfigMapEditor {
    const node: string
    const server: ConfigMapServer
    const editor: DevicePluginConfigEditor
    /** The fields of the loaded configuration other than its list. */
    var rest: Json
    ghost var failedReports: nat   // writes of the node config's status that failed

    constructor (node: string, server: ConfigMapServer)
      ensures this.node == node && this.server == server
      ensures fresh(editor) && editor.configMapResource == map[]
    {
      this.node, this.server := node, server;
      editor := new DevicePluginConfigEditor();
      rest, failedReports := "", 0;
    }

    method LoadCurrentDevicePluginConfig()
      returns (ok: bool, ghost at: seq<ConfigMap>, ghost v: nat, ghost landed: bool, ghost loaded: Option<Data>)
      requires Orderly(server.history)
      modifies this, server, editor`resourceList
      ensures Orderly(server.history) && ByOthers(node, old(server.history), at)
      ensures LoadStep(at, server.history, node, v, landed, loaded)
      ensures ok <==> loaded.Some? && loaded.value.Config?
      ensures ok ==> OwnKey(node) in Last(server.history)
      ensures ok ==> loaded.value == Config(editor.resourceList, rest)
      ensures failedReports == old(failedReports) && old(server.errors) <= server.errors
      ensures loaded.None? && server.errors == old(server.errors) ==>
                v < |at| && OwnKey(node) !in at[v] && SHARED_KEY !in at[v]
    {
      loaded, landed, v := None, false, 0;
      server.Interfere(node);
      OthersKeep(node, old(server.history), server.history);
      at := server.history;
      var version, seen, data;
      ok, version, seen := server.Get();
      if !ok { return; }
      v := version;
      if OwnKey(node) in seen {
        data := seen[OwnKey(node)];
        KeysPersist(at, v, |at| - 1);
      } else {
        if SHARED_KEY !in seen { return false, at, v, false, None; }
        data := seen[SHARED_KEY];
        ghost var before := server.history;
        server.Interfere(node);
        OthersKeep(node, before, server.history);
        OthersCompose(node, old(server.history), before, server.history);
        at := server.history;
        ok, landed := server.Update(version, seen[OwnKey(node) := data]);
        if landed { CreationIsOrderly(at, node, data); }
        if !ok { return; }
      }
      loaded := Some(data);
      if data.Unparsable? { return false, at, v, landed, loaded; }
      editor.resourceList, rest := data.list, data.rest;
      ok := true;
    }

    method UpdateConfigMap(data: Data)
      returns (ok: bool, ghost at: seq<ConfigMap>, ghost v: nat, ghost landed: bool)
      requires Orderly(server.history) && OwnKey(node) in Last(server.history)
      modifies server
      ensures Orderly(server.history) && ByOthers(node, old(server.history), at)
      ensures WriteStep(at, server.history, node, v, landed, data)
      ensures landed ==> Last(server.history) == Last(at)[OwnKey(node) := data]
      ensures ok ==> landed
      ensures server.errors == old(server.errors) + if ok then 0 else 1
    {
      server.Interfere(node);
      OthersKeep(node, old(server.history), server.history);
      var version, seen;
      at, v, landed := server.history, 0, false;
      ok, version, seen := server.Get();
      if !ok { return; }
      v := version;
      KeysPersist(at, v, |at| - 1);
      var key := OwnKey(node);
      if key !in seen {
        key := SHARED_KEY;
      }
      ghost var before := server.history;
      server.Interfere(node);
      OthersKeep(node, before, server.history);
      OthersCompose(node, old(server.history), before, server.history);
      at := server.history;
      ok, landed := server.Update(version, seen[key := data]);
      if landed { CreationIsOrderly(at, node, data); }
    }

    /** One request's turn: load, edit and, if anything changed, write. Apart from a failure to
        write an appended entry, what happens is only reported in the node config's status. */
    method LoadAndModifyDevicePluginConfig(r: Request) returns (ok: bool, ghost t: Turn)
      requires Orderly(server.history)
      modifies this, server, editor
      ensures Orderly(server.history)
      ensures TurnOf(node, r, old(server.history), old(editor.configMapResource), t,
                     server.history, editor.configMapResource)
      ensures old(server.errors) <= server.errors && old(failedReports) <= failedReports
      ensures if ok then failedReports == old(failedReports)
              else server.errors > old(server.errors) || failedReports > old(failedReports)
      ensures server.errors == old(server.errors) ==> Smooth(node, r, old(editor.configMapResource), t)
    {
      ghost var templates := editor.configMapResource;
      ghost var at, v, landed, loaded;
      ok, at, v, landed, loaded := LoadCurrentDevicePluginConfig();
      ghost var mid := server.history;
      t := Turn(at, v, landed, loaded, mid, mid, 0, false);
      if !ok || editor.resourceList == [] {
        ok := Report();
        return;
      }
      var found, dirty := editor.Modify(r);
      ok := true;
      if dirty {
        ghost var at2, v2, landed2;
        ok, at2, v2, landed2 := UpdateConfigMap(Config(editor.resourceList, rest));
        t := Turn(at, v, landed, loaded, mid, at2, v2, landed2);
      }
      if found {
        ok := Report();
      }
    }

    /** Writing the node config's status. */
    method Report() returns (ok: bool)
      modifies this`failedReports
      ensures failedReports == old(failedReports) + if ok then 0 else 1
    {
      ok := *;
      failedReports := failedReports + if ok then 0 else 1;
    }

    /** Every physical function that asks for a resource name has its turn, until one reports an
        error. `worlds` and `memories` are the history and the templates between the turns. */
    method HandleSriovDevicePluginConfigMap(rs: seq<Request>)
      returns (ok: bool, ghost ts: seq<Turn>, ghost worlds: seq<seq<ConfigMap>>, ghost memories: seq<Templates>)
      requires Orderly(server.history)
      modifies this, server, editor
      ensures Orderly(server.history)
      ensures |ts| <= |Named(rs)| && (ok ==> |ts| == |Named(rs)|)
      ensures TurnsOf(node, Named(rs)[..|ts|], ts, worlds, memories)
      ensures worlds[0] == old(server.history) && worlds[|ts|] == server.history
      ensures memories[0] == old(editor.configMapResource) && memories[|ts|] == editor.configMapResource
      ensures if ok then failedReports == old(failedReports)
              else server.errors > old(server.errors) || failedReports > old(failedReports)
      ensures server.errors == old(server.errors) ==> AllSmooth(node, Named(rs)[..|ts|], ts, memories)
    {
      ts, worlds, memories := [], [server.history], [editor.configMapResource];
      for i := 0 to |rs|
        invariant Orderly(server.history)
        invariant TurnsOf(node, Named(rs[..i]), ts, worlds, memories)
        invariant worlds[0] == old(server.history) && worlds[|ts|] == server.history
        invariant memories[0] == old(editor.configMapResource) && memories[|ts|] == editor.configMapResource
        invariant old(server.errors) <= server.errors && failedReports == old(failedReports)
        invariant server.errors == old(server.errors) ==> AllSmooth(node, Named(rs[..i]), ts, memories)
      {
        assert rs[..i + 1][..i] == rs[..i];
        if rs[i].name != "" {
          ghost var t;
          ok, t := LoadAndModifyDevicePluginConfig(rs[i]);
          TurnsGrow(node, Named(rs[..i]), ts, worlds, memories, rs[i], t, server.history, editor.configMapResource);
          ts, worlds, memories := ts + [t], worlds + [server.history], memories + [editor.configMapResource];
          if !ok {
            NamedGrows(rs, i + 1);
            assert Named(rs)[..|ts|] == Named(rs[..i + 1]);
            return;
          }
        }
      }
      assert rs[..|rs|] == rs && Named(rs)[..|ts|] == Named(rs);
      ok := true;
    }
  }

  lemma OthersCompose(node: string, a: seq<ConfigMap>, b: seq<ConfigMap>, c: seq<ConfigMap>)
    requires ByOthers(node, a, b) && ByOthers(node, b, c)
    ensures ByOthers(node, a, c)
  {
  }

  lemma CreationIsOrderly(h: seq<ConfigMap>, node: string, data: Data)
    requires Orderly(h)
    ensures Orderly(h + [Last(h)[OwnKey(node) := data]])
  {
    var next := Last(h)[OwnKey(node) := data];
    assert ChangedBy(node, Last(h), next);
    var longer := h + [next];
    forall i | 0 < i < |longer| ensures Follows(longer[i - 1], longer[i]) {
      if i < |h| { assert Follows(h[i - 1], h[i]); }
    }
  }
}
