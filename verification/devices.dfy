/**
 * The device management page: adding a device from the form, removing one,
 * the immediate effect of a restart, the status badges and the search box.
 * The delayed return to online after a restart runs on a timer and is left
 * out; device ids and timestamps come from the clock and are parameters.
 */
module Devices {
  import opened Strings
  import opened Seqs

  const ONLINE := "online"
  const OFFLINE := "offline"
  const BUSY := "busy"

  /** Placeholders of a new device: the address is to be assigned, the system to be configured. */
  const IP_PENDING := "待分配"
  const OS_PENDING := "待配置"

  datatype Device = Device(id: string, name: string, status: string, lastActive: string, ip: string, model: string, osVersion: string)

  /** The add-device form: name and model. */
  datatype Form = Form(name: string, model: string)

  datatype Page = Page(devices: seq<Device>, form: Form)

  /** A device needs a name and a model that are not blank. */
  predicate CanAdd(f: Form)
  {
    Trim(f.name) != "" && Trim(f.model) != ""
  }

  /** Adding appends an offline device with pending address and system and clears the form; an incomplete form changes nothing. */
  function AddDevice(p: Page, id: string, now: string): (r: Page)
    ensures !CanAdd(p.form) ==> r == p
    ensures CanAdd(p.form) ==> (r.form == Form("", "") && |r.devices| == |p.devices| + 1
      && r.devices[..|p.devices|] == p.devices)
    ensures CanAdd(p.form) ==> (r.devices[|p.devices|]
      == Device(id, p.form.name, OFFLINE, now, IP_PENDING, p.form.model, OS_PENDING))
  {
    if !CanAdd(p.form) then p
    else
      Page(p.devices + [Device(id, p.form.name, OFFLINE, now, IP_PENDING, p.form.model, OS_PENDING)], Form("", ""))
  }

  /** Removing keeps every device with another id, in order. */
  function Remove(devices: seq<Device>, id: string): (r: seq<Device>)
    ensures IsSubseq(r, devices)
    ensures forall d :: d in r <==> d in devices && d.id != id
    ensures forall d :: multiset(r)[d] == if d.id != id then multiset(devices)[d] else 0
  {
    var keep := (d: Device) => d.id != id;
    FilterMultiset(keep, devices);
    Filter(keep, devices)
  }

  /** A restart takes the device offline at once; every other device is unchanged. */
  function Restart(devices: seq<Device>, id: string): (r: seq<Device>)
    ensures |r| == |devices|
    ensures forall i :: 0 <= i < |devices| ==> r[i] == (if devices[i].id == id then devices[i].(status := OFFLINE) else devices[i])
  {
    Map((d: Device) => if d.id == id then d.(status := OFFLINE) else d, devices)
  }

  /** The restart button is disabled for an offline device. */
  predicate RestartEnabled(d: Device)
  {
    d.status != OFFLINE
  }

  /** After a restart the device cannot be restarted again, and a second restart changes nothing. */
  lemma RestartDisablesItself(devices: seq<Device>, i: nat)
    requires i < |devices|
    ensures !RestartEnabled(Restart(devices, devices[i].id)[i])
    ensures Restart(Restart(devices, devices[i].id), devices[i].id) == Restart(devices, devices[i].id)
  {
    var once := Restart(devices, devices[i].id);
    var twice := Restart(once, devices[i].id);
    assert forall k :: 0 <= k < |devices| ==> twice[k] == once[k];
  }

  datatype Badge = Badge(text: string, color: string)

  /** The status badge; any status outside the three known ones reads 未知. */
  function StatusBadge(status: string): (r: Badge)
    ensures status == ONLINE <==> r.text == "在线"
    ensures status == OFFLINE <==> r.text == "离线"
    ensures status == BUSY <==> r.text == "忙碌中"
    ensures status !in {ONLINE, OFFLINE, BUSY} <==> r.text == "未知"
  {
    if status == ONLINE then Badge("在线", "text-green-600 bg-green-100")
    else if status == OFFLINE then Badge("离线", "text-gray-600 bg-gray-100")
    else if status == BUSY then Badge("忙碌中", "text-yellow-600 bg-yellow-100")
    else Badge("未知", "text-gray-600 bg-gray-100")
  }

  /** The search matches the name or the model ignoring case, or the address as typed. */
  predicate MatchesTerm(d: Device, term: string)
  {
    Contains(Lower(d.name), Lower(term)) || Contains(Lower(d.model), Lower(term)) || Contains(d.ip, term)
  }

  /** The devices listed under a search term, in order. */
  function Search(devices: seq<Device>, term: string): (r: seq<Device>)
    ensures IsSubseq(r, devices)
    ensures forall d :: d in r <==> d in devices && MatchesTerm(d, term)
    ensures forall d :: multiset(r)[d] == if MatchesTerm(d, term) then multiset(devices)[d] else 0
  {
    var keep := (d: Device) => MatchesTerm(d, term);
    FilterMultiset(keep, devices);
    Filter(keep, devices)
  }

  /** An empty search lists every device. */
  lemma EmptySearchListsAll(devices: seq<Device>)
    ensures Search(devices, "") == devices
  {
    forall i | 0 <= i < |devices| ensures MatchesTerm(devices[i], "") {
      assert StartsWith(devices[i].ip, "");
    }
    FilterAll((d: Device) => MatchesTerm(d, ""), devices);
  }
}
