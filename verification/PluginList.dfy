/** The device plugin's resource list: how a daemon edits it for one physical function after the
    other (pkg/daemon/daemon_vrb.go). JSON the editor does not look into is kept as is. */
module PluginList {
  import opened Api

  type Json = string

  /** `devices` are the listed device IDs, None for one that is not a string; `addresses` is None
      unless a list of addresses is there. */
  datatype Selectors = Selectors(devices: seq<Option<string>>, addresses: Option<seq<Pci>>, rest: Json)

  /** The "*" part of additionalInfo; `tag` is the PF address, if there is one. */
  datatype Star = Star(tag: Option<string>, rest: Json)

  datatype Resource =
    | Resource(name: Option<string>, selectors: Option<Selectors>, star: Option<Star>, rest: Json)
    | NotAnObject(value: Json)

  /** What one physical function asks for: the ID of its VFs, its address, the resource name and
      the VFs found, None if they could not be listed. */
  datatype Request = Request(device: string, pci: Pci, name: string, vfs: Option<seq<Pci>>)

  // ---------------------------------------------------------------- text

  predicate IsSpace(c: char) {
    c in {'\t', '\n', '\r', ' ', '\U{b}', '\U{c}', '\U{85}', '\U{a0}', '\U{1680}', '\U{2028}', '\U{2029}', '\U{202f}',
          '\U{205f}', '\U{3000}'} || '\U{2000}' <= c <= '\U{200a}'
  }

  function Trim(s: string): string {
    if s != [] && IsSpace(s[0]) then Trim(s[1..])
    else if s != [] && IsSpace(s[|s| - 1]) then Trim(s[..|s| - 1])
    else s
  }

  predicate AllSpace(s: string) {
    forall i :: 0 <= i < |s| ==> IsSpace(s[i])
  }

  /** Trimming takes the blanks off both ends and nothing else. */
  lemma {:induction false} TrimStripsBlanks(s: string) returns (left: string, right: string)
    ensures s == left + Trim(s) + right && AllSpace(left) && AllSpace(right)
    ensures Trim(s) != [] ==> !IsSpace(Trim(s)[0]) && !IsSpace(Trim(s)[|Trim(s)| - 1])
  {
    left, right := "", "";
    if s != [] && IsSpace(s[0]) {
      left, right := TrimStripsBlanks(s[1..]);
      left := [s[0]] + left;
    } else if s != [] && IsSpace(s[|s| - 1]) {
      left, right := TrimStripsBlanks(s[..|s| - 1]);
      right := right + [s[|s| - 1]];
    }
  }

  // ---------------------------------------------------------------- one entry

  predicate ForDevice(e: Resource, device: string) {
    e.Resource? && e.selectors.Some? && e.selectors.value.devices != [] && e.selectors.value.devices[0] == Some(device)
  }

  /** The entry may serve the PF: it is tagged with it or not tagged at all. */
  predicate ForPf(e: Resource, pci: Pci) {
    e.Resource? && e.star.Some? && (e.star.value.tag.Some? ==> Trim(e.star.value.tag.value) == pci)
  }

  predicate Claimable(e: Resource, r: Request) {
    ForDevice(e, r.device) && ForPf(e, r.pci)
  }

  function Count(vfs: Option<seq<Pci>>): nat {
    if vfs.Some? then |vfs.value| else 0
  }

  /** Name and number of VFs are right; the addresses themselves are not compared. */
  predicate UpToDate(e: Resource, r: Request) {
    && e.Resource? && e.name == Some(r.name)
    && e.selectors.Some? && e.selectors.value.addresses.Some?
    && |e.selectors.value.addresses.value| == Count(r.vfs)
  }

  predicate Modifiable(e: Resource) {
    e.Resource? && e.selectors.Some? && e.star.Some?
  }

  function Modified(e: Resource, r: Request): Resource
    requires Modifiable(e)
  {
    e.(name := Some(r.name), selectors := Some(e.selectors.value.(addresses := r.vfs)),
       star := Some(e.star.value.(tag := Some(r.pci))))
  }

  // ---------------------------------------------------------------- one edit

  /** Position of the first entry that the request may claim, or the length of the list. */
  function FirstClaimable(list: seq<Resource>, r: Request): (i: nat)
    ensures i <= |list|
    ensures i < |list| ==> Claimable(list[i], r)
    ensures forall j :: 0 <= j < i ==> !Claimable(list[j], r)
  {
    if list == [] || Claimable(list[0], r) then 0 else 1 + FirstClaimable(list[1..], r)
  }

  lemma FirstIsHere(list: seq<Resource>, r: Request, i: nat)
    requires i < |list| && forall j :: 0 <= j < i ==> !Claimable(list[j], r)
    ensures Claimable(list[i], r) ==> FirstClaimable(list, r) == i && FirstForDevice(list, r.device) <= i
  {
  }

  function FirstForDevice(list: seq<Resource>, device: string): (i: nat)
    ensures i <= |list|
    ensures i < |list| ==> ForDevice(list[i], device)
    ensures forall j :: 0 <= j < i ==> !ForDevice(list[j], device)
  {
    if list == [] || ForDevice(list[0], device) then 0 else 1 + FirstForDevice(list[1..], device)
  }

  type Templates = map<string, Resource>

  /** The first entry seen for a device is kept as a template for further ones. */
  function Remember(templates: Templates, list: seq<Resource>, device: string): Templates {
    var i := FirstForDevice(list, device);
    if device in templates || i == |list| then templates else templates[device := list[i]]
  }

  /** The list an edit writes, if any. */
  function Edited(templates: Templates, list: seq<Resource>, r: Request): Option<seq<Resource>> {
    var i, known := FirstClaimable(list, r), Remember(templates, list, r.device);
    if i < |list| then
      if UpToDate(list[i], r) then None else Some(list[i := Modified(list[i], r)])
    else if list != [] && r.device in known && Modifiable(known[r.device]) then
      Some(list + [Modified(known[r.device], r)])
    else None
  }

  function After(templates: Templates, list: seq<Resource>, r: Request): seq<Resource> {
    var e := Edited(templates, list, r);
    if e.Some? then e.value else list
  }

  // ---------------------------------------------------------------- the editor

  class DevicePluginConfigEditor {
    /** Templates by device ID, kept for the life of the daemon. */
    var configMapResource: Templates
    /** The list under edit, as loaded. */
    var resourceList: seq<Resource>

    constructor ()
      ensures configMapResource == map[] && resourceList == []
    {
      configMapResource, resourceList := map[], [];
    }

    method MatchVFDeviceID(e: Resource, device: string) returns (matches: bool)
      modifies this`configMapResource
      ensures matches == ForDevice(e, device)
      ensures matches <==> && e.Resource? && e.selectors.Some? && e.selectors.value.devices != []
                           && e.selectors.value.devices[0] == Some(device)
      ensures configMapResource == if matches && device !in old(configMapResource)
                                   then old(configMapResource)[device := e] else old(configMapResource)
    {
      if !e.Resource? || e.selectors.None? { return false; }
      var devices := e.selectors.value.devices;
      if |devices| == 0 { return false; }
      if devices[0] == Some(device) {
        if device !in configMapResource {
          configMapResource := configMapResource[device := e];
        }
        return true;
      }
      return false;
    }

    method MatchPFPCIAddress(e: Resource, pci: Pci) returns (matches: bool)
      requires e.Resource?
      ensures matches == ForPf(e, pci)
      ensures matches <==> e.star.Some? && (e.star.value.tag == None || Trim(e.star.value.tag.value) == pci)
    {
      if e.star.None? { return false; }
      if e.star.value.tag.Some? && Trim(e.star.value.tag.value) != pci { return false; }
      return true;
    }

    method MatchVFsAndResourceName(e: Resource, r: Request) returns (matches: bool)
      requires e.Resource?
      ensures matches == UpToDate(e, r)
      ensures matches <==> && e.name == Some(r.name) && e.selectors.Some? && e.selectors.value.addresses.Some?
                           && |e.selectors.value.addresses.value| == if r.vfs.None? then 0 else |r.vfs.value|
    {
      if e.name.None? || e.selectors.None? || e.selectors.value.addresses.None? { return false; }
      return e.name.value == r.name && |e.selectors.value.addresses.value| == Count(r.vfs);
    }

    method ModifyResource(e: Resource, r: Request) returns (ok: bool, modified: Resource)
      requires e.Resource?
      ensures ok == Modifiable(e) && (ok ==> modified == Modified(e, r))
      ensures ok <==> e.selectors.Some? && e.star.Some?
      ensures ok ==> && modified.Resource? && modified.name == Some(r.name) && modified.rest == e.rest
                     && modified.selectors == Some(e.selectors.value.(addresses := r.vfs))
                     && modified.star == Some(e.star.value.(tag := Some(r.pci)))
    {
      if e.selectors.None? || e.star.None? { return false, e; }
      var selectors := e.selectors.value.(addresses := r.vfs);
      var star := e.star.value.(tag := Some(r.pci));
      return true, Resource(Some(r.name), Some(selectors), Some(star), e.rest);
    }

    /** Looks for the entry of the request and brings it up to date. `found` says that there is
        one; `dirty`, that the list must be written. */
    method ResourceFoundAndUpdated(r: Request) returns (found: bool, dirty: bool)
      modifies this
      ensures found <==> FirstClaimable(old(resourceList), r) < |old(resourceList)|
      ensures configMapResource == Remember(old(configMapResource), old(resourceList), r.device)
      ensures resourceList == if found then After(old(configMapResource), old(resourceList), r) else old(resourceList)
      ensures dirty <==> found && Edited(old(configMapResource), old(resourceList), r).Some?
    {
      ghost var list := resourceList;
      for i := 0 to |resourceList|
        invariant resourceList == list
        invariant forall j :: 0 <= j < i ==> !Claimable(list[j], r)
        invariant configMapResource == Remember(old(configMapResource), list[..i], r.device)
      {
        RememberPrefix(old(configMapResource), list, r.device, i);
        FirstIsHere(list, r, i);
        var e := resourceList[i];
        if e.Resource? {
          var forDevice := MatchVFDeviceID(e, r.device);
          if forDevice {
            var forPf := MatchPFPCIAddress(e, r.pci);
            if forPf {
              var upToDate := MatchVFsAndResourceName(e, r);
              if upToDate { return true, false; }
              var ok, modified := ModifyResource(e, r);
              if ok {
                resourceList := resourceList[i := modified];
                return true, true;
              }
            }
          }
        }
      }
      assert list[..|list|] == list;
      return false, false;
    }

    /** Adds an entry made from the template of the device, if there is one. */
    method HandleResourceNotFound(r: Request) returns (dirty: bool)
      modifies this`resourceList
      ensures dirty <==> r.device in configMapResource && Modifiable(configMapResource[r.device])
      ensures resourceList == if dirty then old(resourceList) + [Modified(configMapResource[r.device], r)]
                              else old(resourceList)
    {
      if r.device !in configMapResource || configMapResource[r.device].NotAnObject? { return false; }
      var ok, modified := ModifyResource(configMapResource[r.device], r);
      if ok {
        resourceList := resourceList + [modified];
      }
      return ok;
    }

    /** The edit of the loaded list for one request. */
    method Modify(r: Request) returns (found: bool, dirty: bool)
      modifies this
      ensures found <==> FirstClaimable(old(resourceList), r) < |old(resourceList)|
      ensures configMapResource == Remember(old(configMapResource), old(resourceList), r.device)
      ensures resourceList == After(old(configMapResource), old(resourceList), r)
      ensures dirty <==> Edited(old(configMapResource), old(resourceList), r).Some?
    {
      if |resourceList| == 0 { return false, false; }
      found, dirty := ResourceFoundAndUpdated(r);
      if !found {
        dirty := HandleResourceNotFound(r);
      }
    }
  }

  lemma {:induction false} RememberPrefix(templates: Templates, list: seq<Resource>, device: string, n: nat)
    requires n < |list|
    ensures Remember(templates, list[..n + 1], device) ==
            var before := Remember(templates, list[..n], device);
            if ForDevice(list[n], device) && device !in before then before[device := list[n]] else before
    ensures FirstForDevice(list, device) <= n ==>
              Remember(templates, list[..n + 1], device) == Remember(templates, list, device)
  {
    var i, j := FirstForDevice(list[..n], device), FirstForDevice(list[..n + 1], device);
    var k := FirstForDevice(list, device);
    assert j < n + 1 ==> list[..n + 1][j] == list[j];
    assert i < n ==> list[..n][i] == list[i];
  }
}
