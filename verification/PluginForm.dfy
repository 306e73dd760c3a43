/** What the resource list keeps through every sequence of edits and daemon restarts, and what
    edits achieve. */
module PluginForm {
  import opened Api
  import opened PluginList

  // ---------------------------------------------------------------- the form of a list

  /** What all entries of a device share: everything but name, addresses and tag. */
  function Shape(e: Resource): Resource
    requires Modifiable(e)
  {
    e.(name := None, selectors := Some(e.selectors.value.(addresses := None)), star := Some(e.star.value.(tag := None)))
  }

  function TagOf(e: Resource): Option<string>
    requires Modifiable(e)
  {
    if e.star.value.tag.Some? then Some(Trim(e.star.value.tag.value)) else None
  }

  ghost predicate IsTemplate(templates: Templates, device: string) {
    device in templates ==> Modifiable(templates[device]) && ForDevice(templates[device], device)
  }

  /** The entries of a device and its template have one shape. */
  ghost predicate OneShape(templates: Templates, list: seq<Resource>, device: string) {
    && IsTemplate(templates, device)
    && (forall i :: 0 <= i < |list| && ForDevice(list[i], device) ==> Modifiable(list[i]))
    && (forall i, j ::
          0 <= i < |list| && 0 <= j < |list| && ForDevice(list[i], device) && ForDevice(list[j], device) ==>
            Shape(list[i]) == Shape(list[j]))
    && (forall i :: 0 <= i < |list| && ForDevice(list[i], device) && device in templates ==>
          Shape(list[i]) == Shape(templates[device]))
  }

  /** The device has a single entry, not tagged and without addresses. */
  ghost predicate Untagged(list: seq<Resource>, device: string) {
    exists i :: 0 <= i < |list| && IsSoleUntagged(list, device, i)
  }

  ghost predicate IsSoleUntagged(list: seq<Resource>, device: string, i: nat)
    requires i < |list|
  {
    && ForDevice(list[i], device) && Modifiable(list[i]) && TagOf(list[i]) == None
    && list[i].selectors.value.addresses == None
    && forall j :: 0 <= j < |list| && ForDevice(list[j], device) ==> j == i
  }

  /** All entries of the device are tagged, no two with the same PF. */
  ghost predicate Tagged(list: seq<Resource>, device: string) {
    && (forall i :: 0 <= i < |list| && ForDevice(list[i], device) ==> Modifiable(list[i]) && TagOf(list[i]).Some?)
    && (forall i, j :: 0 <= i < j < |list| && ForDevice(list[i], device) && ForDevice(list[j], device) ==>
          TagOf(list[i]) != TagOf(list[j]))
  }

  ghost predicate Formed(templates: Templates, list: seq<Resource>, device: string) {
    OneShape(templates, list, device) && (Untagged(list, device) || Tagged(list, device))
  }

  ghost predicate AllFormed(templates: Templates, list: seq<Resource>) {
    forall device :: Formed(templates, list, device)
  }

  /** PCI addresses carry no surrounding blanks. */
  predicate Plain(r: Request) {
    Trim(r.pci) == r.pci
  }

  // ---------------------------------------------------------------- what one edit does

  /** The edit left the list, changed the one entry at `i`, or appended one at `i`. */
  ghost predicate EditedAt(list: seq<Resource>, list': seq<Resource>, r: Request, i: nat, from: Resource) {
    && Modifiable(from) && ForDevice(from, r.device)
    && ((i < |list| && list[i] == from && list' == list[i := Modified(from, r)])
        || (i == |list| && list' == list + [Modified(from, r)]))
  }

  lemma WhatIsEdited(templates: Templates, list: seq<Resource>, r: Request) returns (i: nat, from: Resource)
    requires IsTemplate(templates, r.device) && Edited(templates, list, r).Some?
    requires forall i :: 0 <= i < |list| && ForDevice(list[i], r.device) ==> Modifiable(list[i])
    ensures EditedAt(list, After(templates, list, r), r, i, from)
    ensures i == FirstClaimable(list, r)
    ensures i == |list| ==>
              var known := Remember(templates, list, r.device);
              r.device in known && from == known[r.device]
  {
    i := FirstClaimable(list, r);
    from := if i < |list| then list[i] else Remember(templates, list, r.device)[r.device];
  }

  /** The entries of the device are the same, at the same positions. */
  ghost predicate SameEntries(list: seq<Resource>, list': seq<Resource>, device: string) {
    && |list| <= |list'|
    && (forall j :: 0 <= j < |list| && ForDevice(list[j], device) ==> list'[j] == list[j])
    && (forall j :: 0 <= j < |list'| && ForDevice(list'[j], device) ==> j < |list| && list'[j] == list[j])
  }

  /** An edit leaves the entries of the other devices alone. */
  lemma OtherDevicesUntouched(templates: Templates, list: seq<Resource>, r: Request, device: string)
    requires OneShape(templates, list, r.device) && device != r.device
    ensures SameEntries(list, After(templates, list, r), device)
    ensures Get(Remember(templates, list, r.device), device) == Get(templates, device)
  {
    if Edited(templates, list, r).Some? {
      var i, from := WhatIsEdited(templates, list, r);
    }
  }

  lemma SameEntriesSameShape(templates: Templates, list: seq<Resource>, templates': Templates, list': seq<Resource>,
                             device: string)
    requires SameEntries(list, list', device) && Get(templates', device) == Get(templates, device)
    requires OneShape(templates, list, device)
    ensures OneShape(templates', list', device)
  {
  }

  lemma SameEntriesSameForm(templates: Templates, list: seq<Resource>, templates': Templates, list': seq<Resource>,
                            device: string)
    requires SameEntries(list, list', device) && Get(templates', device) == Get(templates, device)
    requires Formed(templates, list, device)
    ensures Formed(templates', list', device)
  {
    SameEntriesSameShape(templates, list, templates', list', device);
    if k :| 0 <= k < |list| && IsSoleUntagged(list, device, k) {
      assert IsSoleUntagged(list', device, k);
    }
  }

  lemma ModifiedKeepsShape(e: Resource, r: Request)
    requires Modifiable(e) && Plain(r)
    ensures Modifiable(Modified(e, r)) && Shape(Modified(e, r)) == Shape(e) && TagOf(Modified(e, r)) == Some(r.pci)
    ensures forall device :: ForDevice(Modified(e, r), device) <==> ForDevice(e, device)
  {
  }

  lemma ShapeKept(templates: Templates, list: seq<Resource>, r: Request)
    requires OneShape(templates, list, r.device) && Plain(r)
    ensures OneShape(Remember(templates, list, r.device), After(templates, list, r), r.device)
  {
    if Edited(templates, list, r).Some? {
      var i, from := WhatIsEdited(templates, list, r);
      ModifiedKeepsShape(from, r);
      var known, list' := Remember(templates, list, r.device), After(templates, list, r);
      assert OneShape(known, list, r.device);
      assert forall j :: 0 <= j < |list| && j != i ==> list'[j] == list[j];
    }
  }

  /** An edit of a well-formed list leaves the entries of its device distinctly tagged, or writes
      nothing. */
  lemma TagsKept(templates: Templates, list: seq<Resource>, r: Request)
    requires Formed(templates, list, r.device) && Plain(r) && Edited(templates, list, r).Some?
    ensures Tagged(After(templates, list, r), r.device)
  {
    var i, from := WhatIsEdited(templates, list, r);
    ModifiedKeepsShape(from, r);
    var list' := After(templates, list, r);
    if k :| 0 <= k < |list| && IsSoleUntagged(list, r.device, k) {
      assert Claimable(list[k], r);
      assert i == k;
    } else {
      assert forall j :: 0 <= j < |list| && ForDevice(list[j], r.device) && TagOf(list[j]) == Some(r.pci) ==>
          Claimable(list[j], r) && i < |list| && TagOf(list[i]) == Some(r.pci);
    }
  }

  /** An edit keeps the form of the whole list. */
  lemma EditKeepsForm(templates: Templates, list: seq<Resource>, r: Request)
    requires AllFormed(templates, list) && Plain(r)
    ensures AllFormed(Remember(templates, list, r.device), After(templates, list, r))
  {
    assert Formed(templates, list, r.device);
    forall device ensures Formed(Remember(templates, list, r.device), After(templates, list, r), device) {
      assert Formed(templates, list, device);
      if device != r.device {
        OtherDevicesUntouched(templates, list, r, device);
        SameEntriesSameForm(templates, list, Remember(templates, list, r.device), After(templates, list, r), device);
      } else {
        ShapeKept(templates, list, r);
        if Edited(templates, list, r).Some? {
          TagsKept(templates, list, r);
        }
      }
    }
  }

  lemma RememberKeepsForm(templates: Templates, list: seq<Resource>, seen: string)
    requires AllFormed(templates, list)
    ensures AllFormed(Remember(templates, list, seen), list)
  {
    forall device ensures Formed(Remember(templates, list, seen), list, device) {
      assert Formed(templates, list, device);
    }
  }

  /** A list as installed, with one untagged entry for each device, is well formed. */
  lemma FreshListIsFormed(list: seq<Resource>)
    requires forall i :: 0 <= i < |list| ==>
               Modifiable(list[i]) && TagOf(list[i]) == None && list[i].selectors.value.addresses == None
    requires forall i, j, device :: 0 <= i < j < |list| && ForDevice(list[i], device) ==> !ForDevice(list[j], device)
    ensures AllFormed(map[], list)
  {
    forall device ensures Formed(map[], list, device) {
      if i :| 0 <= i < |list| && ForDevice(list[i], device) {
        assert IsSoleUntagged(list, device, i);
      }
    }
  }

  // ---------------------------------------------------------------- histories

  /** What a daemon remembers, and its list. */
  datatype State = State(templates: Templates, list: seq<Resource>)

  function EditOne(s: State, r: Request): State {
    State(Remember(s.templates, s.list, r.device), After(s.templates, s.list, r))
  }

  function EditAll(s: State, rs: seq<Request>): State {
    if rs == [] then s else EditOne(EditAll(s, rs[..|rs| - 1]), rs[|rs| - 1])
  }

  /** A write can be refused; the template is remembered all the same. */
  datatype ListEvent = Edit(r: Request) | Refused(r: Request) | Restart

  function Happens(s: State, e: ListEvent): State {
    match e
    case Edit(r) => EditOne(s, r)
    case Refused(r) => s.(templates := Remember(s.templates, s.list, r.device))
    case Restart => s.(templates := map[])
  }

  function History(s: State, events: seq<ListEvent>): State {
    if events == [] then s else Happens(History(s, events[..|events| - 1]), events[|events| - 1])
  }

  /** Through every sequence of edits, renames, VF-count changes and daemon restarts, each device
      keeps either one untagged entry or only distinctly tagged ones, all of one shape. */
  lemma {:induction false} HistoryKeepsForm(s: State, events: seq<ListEvent>)
    requires AllFormed(s.templates, s.list)
    requires forall e :: e in events && e.Edit? ==> Plain(e.r)
    ensures AllFormed(History(s, events).templates, History(s, events).list)
  {
    if events != [] {
      var n := |events| - 1;
      HistoryKeepsForm(s, events[..n]);
      var before := History(s, events[..n]);
      match events[n]
      case Edit(r) => EditKeepsForm(before.templates, before.list, r);
      case Refused(r) => RememberKeepsForm(before.templates, before.list, r.device);
      case Restart =>
        forall device ensures Formed(map[], before.list, device) {
          assert Formed(before.templates, before.list, device);
        }
    }
  }

  // ---------------------------------------------------------------- what edits achieve

  /** The entry serves the request: right device, tag, name and number of VFs. */
  ghost predicate Serves(e: Resource, r: Request) {
    && Modifiable(e) && ForDevice(e, r.device) && TagOf(e) == Some(r.pci) && e.name == Some(r.name)
    && Count(e.selectors.value.addresses) == Count(r.vfs)
    && (r.vfs.Some? ==> e.selectors.value.addresses.Some?)
  }

  /** The entry at `i` serves the request, and no other entry of the device may be claimed by it. */
  ghost predicate ServedAt(list: seq<Resource>, r: Request, i: nat) {
    && i < |list| && Serves(list[i], r)
    && forall j :: 0 <= j < |list| && j != i ==> !Claimable(list[j], r)
  }

  ghost predicate Served(list: seq<Resource>, r: Request) {
    exists i :: 0 <= i < |list| && ServedAt(list, r, i)
  }

  /** The list or the templates know the device. */
  predicate Known(s: State, device: string) {
    s.list != [] && device in Remember(s.templates, s.list, device)
  }

  /** An edit for a known device serves its request. */
  lemma EditServes(s: State, r: Request)
    requires Formed(s.templates, s.list, r.device) && Plain(r) && Known(s, r.device)
    ensures Served(EditOne(s, r).list, r)
  {
    var list' := EditOne(s, r).list;
    if Edited(s.templates, s.list, r).Some? {
      var i, from := WhatIsEdited(s.templates, s.list, r);
      ModifiedKeepsShape(from, r);
      TagsKept(s.templates, s.list, r);
      assert ServedAt(list', r, i);
    } else {
      var i := FirstClaimable(s.list, r);
      assert i < |s.list| && UpToDate(s.list[i], r);
      assert TagOf(s.list[i]).Some?;
      assert ServedAt(list', r, i);
    }
  }

  /** An edit changes no entry that it may not claim, and what it changes or adds it may claim. */
  lemma EditFrame(s: State, r: Request, j: nat)
    requires Formed(s.templates, s.list, r.device) && Plain(r)
    ensures var list' := EditOne(s, r).list;
            && |s.list| <= |list'| <= |s.list| + 1
            && (j < |s.list| ==> list'[j] == s.list[j] || (Claimable(s.list[j], r) && Claimable(list'[j], r)))
            && (|s.list| <= j < |list'| ==> Claimable(list'[j], r))
  {
  }

  /** An edit for another PF leaves a request served exactly if it was. */
  lemma EditKeepsServed(s: State, r: Request, other: Request)
    requires Formed(s.templates, s.list, other.device) && Plain(r) && Plain(other) && other.pci != r.pci
    ensures Served(EditOne(s, other).list, r) <==> Served(s.list, r)
  {
    if i :| 0 <= i < |s.list| && ServedAt(s.list, r, i) {
      StaysServed(s, r, other, i);
    }
    if i :| 0 <= i < |EditOne(s, other).list| && ServedAt(EditOne(s, other).list, r, i) {
      WasServed(s, r, other, i);
    }
  }

  lemma StaysServed(s: State, r: Request, other: Request, i: nat)
    requires Formed(s.templates, s.list, other.device) && Plain(r) && Plain(other) && other.pci != r.pci
    requires ServedAt(s.list, r, i)
    ensures ServedAt(EditOne(s, other).list, r, i)
  {
    var list' := EditOne(s, other).list;
    EditFrame(s, other, i);
    forall j | 0 <= j < |list'| && j != i ensures !Claimable(list'[j], r) {
      EditFrame(s, other, j);
      if Edited(s.templates, s.list, other).Some? {
        var k, from := WhatIsEdited(s.templates, s.list, other);
        ModifiedKeepsShape(from, other);
      }
    }
  }

  lemma WasServed(s: State, r: Request, other: Request, i: nat)
    requires Formed(s.templates, s.list, other.device) && Plain(r) && Plain(other) && other.pci != r.pci
    requires ServedAt(EditOne(s, other).list, r, i)
    ensures ServedAt(s.list, r, i)
  {
    if Edited(s.templates, s.list, other).Some? {
      var k, from := WhatIsEdited(s.templates, s.list, other);
      ModifiedKeepsShape(from, other);
      var list' := EditOne(s, other).list;
      assert i < |s.list| && s.list[i] == list'[i];
      forall j | 0 <= j < |s.list| && j != i ensures !Claimable(s.list[j], r) {
        if j == k {
          ClaimedIsNotShared(s, r, other, i, k);
        } else {
          assert list'[j] == s.list[j];
        }
      }
    }
  }

  /** The entry that an edit claims is not one that another request could claim beside its own. */
  lemma ClaimedIsNotShared(s: State, r: Request, other: Request, i: nat, k: nat)
    requires Formed(s.templates, s.list, other.device) && i < |s.list| && k < |s.list| && i != k
    requires Serves(s.list[i], r) && Claimable(s.list[k], other) && other.pci != r.pci
    ensures !Claimable(s.list[k], r)
  {
  }

  /** Edits neither make devices known nor unknown. */
  lemma EditKeepsKnown(s: State, r: Request, device: string)
    requires Formed(s.templates, s.list, r.device) && Plain(r)
    ensures Known(EditOne(s, r), device) <==> Known(s, device)
  {
    if device != r.device {
      OtherDevicesUntouched(s.templates, s.list, r, device);
    }
  }

  /** All requests name different PFs. */
  ghost predicate Separate(rs: seq<Request>) {
    && (forall i :: 0 <= i < |rs| ==> Plain(rs[i]))
    && (forall i, j :: 0 <= i < j < |rs| ==> rs[i].pci != rs[j].pci)
  }

  lemma {:induction false} EditAllKeepsForm(s: State, rs: seq<Request>)
    requires AllFormed(s.templates, s.list) && Separate(rs)
    ensures AllFormed(EditAll(s, rs).templates, EditAll(s, rs).list)
  {
    if rs != [] {
      EditAllKeepsForm(s, rs[..|rs| - 1]);
      var before := EditAll(s, rs[..|rs| - 1]);
      EditKeepsForm(before.templates, before.list, rs[|rs| - 1]);
    }
  }

  lemma {:induction false} EditAllKeepsKnown(s: State, rs: seq<Request>, device: string)
    requires AllFormed(s.templates, s.list) && Separate(rs)
    ensures Known(EditAll(s, rs), device) <==> Known(s, device)
  {
    if rs != [] {
      var n := |rs| - 1;
      EditAllKeepsKnown(s, rs[..n], device);
      EditAllKeepsForm(s, rs[..n]);
      var before := EditAll(s, rs[..n]);
      assert Formed(before.templates, before.list, rs[n].device);
      EditKeepsKnown(before, rs[n], device);
    }
  }

  /** After all requests of a node have been handled, each one whose device is known is served by
      exactly one entry. */
  lemma {:induction false} EditAllServes(s: State, rs: seq<Request>, k: nat)
    requires AllFormed(s.templates, s.list) && Separate(rs) && k < |rs| && Known(s, rs[k].device)
    ensures Served(EditAll(s, rs).list, rs[k])
  {
    var n := |rs| - 1;
    EditAllKeepsForm(s, rs[..n]);
    var before := EditAll(s, rs[..n]);
    assert Formed(before.templates, before.list, rs[n].device);
    if k == n {
      EditAllKeepsKnown(s, rs[..n], rs[k].device);
      EditServes(before, rs[n]);
    } else {
      EditAllServes(s, rs[..n], k);
      EditKeepsServed(before, rs[k], rs[n]);
    }
  }

  /** Entries no request may claim stay as they are, and every new entry belongs to a request. */
  lemma {:induction false} EditAllFrame(s: State, rs: seq<Request>, j: nat)
    requires AllFormed(s.templates, s.list) && Separate(rs)
    ensures |s.list| <= |EditAll(s, rs).list|
    ensures j < |s.list| && (forall r :: r in rs ==> !Claimable(s.list[j], r)) ==> EditAll(s, rs).list[j] == s.list[j]
    ensures |s.list| <= j < |EditAll(s, rs).list| ==> exists r :: r in rs && Claimable(EditAll(s, rs).list[j], r)
  {
    if rs != [] {
      var n := |rs| - 1;
      EditAllFrame(s, rs[..n], j);
      EditAllKeepsForm(s, rs[..n]);
      var before := EditAll(s, rs[..n]);
      assert Formed(before.templates, before.list, rs[n].device);
      EditFrame(before, rs[n], j);
      assert rs[n] in rs;
    }
  }

  // ---------------------------------------------------------------- second runs

  lemma QuietWhenServed(templates: Templates, list: seq<Resource>, r: Request)
    requires Served(list, r) && r.vfs.Some?
    ensures Edited(templates, list, r).None?
  {
  }

  lemma QuietWhenUnknown(s: State, r: Request)
    requires !Known(s, r.device)
    ensures Edited(s.templates, s.list, r).None?
  {
  }

  /** The list has nothing left to be edited for `r`. */
  ghost predicate Done(s: State, r: Request) {
    r.vfs.Some? && (Served(s.list, r) || !Known(s, r.device))
  }

  lemma QuietWhenDone(s: State, r: Request)
    requires Done(s, r)
    ensures Edited(s.templates, s.list, r).None? && EditOne(s, r).list == s.list
    ensures forall device :: Known(EditOne(s, r), device) <==> Known(s, device)
  {
    if Served(s.list, r) {
      QuietWhenServed(s.templates, s.list, r);
    } else {
      QuietWhenUnknown(s, r);
    }
  }

  lemma {:induction false} QuietRun(s: State, rs: seq<Request>)
    requires forall r :: r in rs ==> Done(s, r)
    ensures EditAll(s, rs).list == s.list
    ensures forall device :: Known(EditAll(s, rs), device) <==> Known(s, device)
  {
    if rs != [] {
      var n := |rs| - 1;
      QuietRun(s, rs[..n]);
      assert rs[n] in rs;
      QuietWhenDone(EditAll(s, rs[..n]), rs[n]);
    }
  }

  /** Handling the same requests again writes nothing, before or after a restart of the daemon. */
  lemma SecondRunWritesNothing(s: State, rs: seq<Request>, restarted: bool, k: nat)
    requires AllFormed(s.templates, s.list) && Separate(rs) && k < |rs|
    requires forall r :: r in rs ==> r.vfs.Some?
    ensures var first := EditAll(s, rs);
            var again := if restarted then first.(templates := map[]) else first;
            && EditAll(again, rs).list == first.list
            && Edited(EditAll(again, rs[..k]).templates, first.list, rs[k]).None?
  {
    var first := EditAll(s, rs);
    var again := if restarted then first.(templates := map[]) else first;
    forall r | r in rs ensures Done(again, r) {
      var i :| 0 <= i < |rs| && rs[i] == r;
      if Known(s, r.device) {
        EditAllServes(s, rs, i);
      } else {
        EditAllKeepsKnown(s, rs, r.device);
      }
    }
    QuietRun(again, rs);
    QuietRun(again, rs[..k]);
    assert Done(again, rs[k]) && Done(EditAll(again, rs[..k]), rs[k]);
    QuietWhenDone(EditAll(again, rs[..k]), rs[k]);
  }

  /** Repeating an edit writes nothing exactly if it wrote nothing the first time or the VFs could
      be listed. */
  lemma RepeatedEditIsQuietIff(s: State, r: Request)
    requires Formed(s.templates, s.list, r.device) && Plain(r)
    ensures var first := EditOne(s, r);
            Edited(first.templates, first.list, r).None? <==> Edited(s.templates, s.list, r).None? || r.vfs.Some?
  {
    var first := EditOne(s, r);
    if Edited(s.templates, s.list, r).Some? {
      var i, from := WhatIsEdited(s.templates, s.list, r);
      ModifiedKeepsShape(from, r);
      assert first.list[i] == Modified(from, r) && Claimable(first.list[i], r);
      assert FirstClaimable(first.list, r) == i;
    }
  }

  /** The addresses in a claimed entry become those of the VFs found exactly if they were already,
      or name or number differed. */
  lemma AddressesRefreshedIff(s: State, r: Request)
    requires FirstClaimable(s.list, r) < |s.list|
    ensures var i := FirstClaimable(s.list, r);
            EditOne(s, r).list[i].selectors.value.addresses == r.vfs <==>
            !UpToDate(s.list[i], r) || s.list[i].selectors.value.addresses == r.vfs
  {
  }
}
