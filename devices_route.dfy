/**
 * The device routes (patchpilot_server/src/routes/devices.rs): the device
 * list ordered by hostname, one device by uuid, and approval by uuid.
 */
module DevicesRoute {
  import opened Wrappers
  import opened Models
  import opened Http
  import opened Db
  import opened Sorting

  /** `ORDER BY hostname ASC`, comparing text by character code. */
  predicate HostnameOrder(a: Device, b: Device) {
    StrLe(a.hostname, b.hostname)
  }

  lemma HostnameOrderIsTotalPreorder()
    ensures TotalPreorder(HostnameOrder)
  {
    forall a: Device, b: Device ensures HostnameOrder(a, b) || HostnameOrder(b, a) {
      StrLeTotal(a.hostname, b.hostname);
    }
    forall a: Device, b: Device, c: Device | HostnameOrder(a, b) && HostnameOrder(b, c)
      ensures HostnameOrder(a, c)
    {
      StrLeTransitive(a.hostname, b.hostname, c.hostname);
    }
  }

  /** `get_devices`: every device, each exactly once, in ascending hostname order. */
  function GetDevices(devices: seq<Device>, connOk: bool, queryOk: bool): (r: Result<seq<Device>, Status>)
    ensures !(connOk && queryOk) ==> r == Err(InternalServerError)
    ensures connOk && queryOk ==> r.Ok? && multiset(r.value) == multiset(devices)
    ensures r.Ok? ==> forall i, j :: 0 <= i < j < |r.value| ==> StrLe(r.value[i].hostname, r.value[j].hostname)
  {
    if !(connOk && queryOk) then Err(InternalServerError)
    else
      HostnameOrderIsTotalPreorder();
      Ok(SortBy(devices, HostnameOrder))
  }

  /** `filter(uuid = id).first()`: the first device with that uuid. */
  function FindByUuid(devices: seq<Device>, uuid: string): (r: Option<Device>)
    ensures r.None? <==> forall d :: d in devices ==> d.uuid != uuid
    ensures r.Some? ==> r.value in devices && r.value.uuid == uuid
    ensures forall i :: (0 <= i < |devices| && devices[i].uuid == uuid &&
               (forall j :: 0 <= j < i ==> devices[j].uuid != uuid)) ==>
                r == Some(devices[i])
  {
    if devices == [] then None
    else if devices[0].uuid == uuid then Some(devices[0])
    else FindByUuid(devices[1..], uuid)
  }

  /** `get_device_details`: the device with that uuid, NotFound when there is none or the query fails. */
  function GetDeviceDetails(devices: seq<Device>, uuid: string, connOk: bool, queryOk: bool): (r: Result<Device, Status>)
    ensures !connOk ==> r == Err(InternalServerError)
    ensures connOk && !queryOk ==> r == Err(NotFound)
    ensures connOk && queryOk ==> (r == Err(NotFound) <==> forall d :: d in devices ==> d.uuid != uuid)
    ensures r.Ok? ==> r.value in devices && r.value.uuid == uuid
    ensures connOk && queryOk ==> forall i :: (0 <= i < |devices| && devices[i].uuid == uuid &&
               (forall j :: 0 <= j < i ==> devices[j].uuid != uuid)) ==>
                r == Ok(devices[i])
  {
    if !connOk then Err(InternalServerError)
    else if !queryOk then Err(NotFound)
    else match FindByUuid(devices, uuid)
      case None => Err(NotFound)
      case Some(d) => Ok(d)
  }

  /** `UPDATE devices SET approved = true WHERE uuid = id`. */
  function ApproveWhere(devices: seq<Device>, uuid: string): (r: seq<Device>)
    ensures |r| == |devices|
    ensures forall i :: 0 <= i < |r| ==>
      (r[i].approved <==> devices[i].approved || devices[i].uuid == uuid)
      && r[i].(approved := devices[i].approved) == devices[i]
  {
    seq(|devices|, i requires 0 <= i < |devices| =>
      if devices[i].uuid == uuid then devices[i].(approved := true) else devices[i])
  }

  /** Approving twice is the same as approving once. */
  lemma ApproveIdempotent(devices: seq<Device>, uuid: string)
    ensures ApproveWhere(ApproveWhere(devices, uuid), uuid) == ApproveWhere(devices, uuid)
  {
    var once := ApproveWhere(devices, uuid);
    var twice := ApproveWhere(once, uuid);
    forall i | 0 <= i < |devices| ensures twice[i] == once[i] {
    }
  }

  /** `approve_device`: Ok whether or not a row matched; the update changes only matching rows. */
  method ApproveDevice(db: Database, uuid: string, connOk: bool, updateOk: bool) returns (r: Result<Status, Status>)
    modifies db`devices
    ensures connOk && updateOk <==> r.Ok?
    ensures r.Ok? ==> r == Ok(OK)
    ensures r.Err? ==> r.error == InternalServerError && db.devices == old(db.devices)
    ensures r.Ok? ==> db.devices == ApproveWhere(old(db.devices), uuid)
  {
    if !connOk || !updateOk {
      return Err(InternalServerError);
    }
    db.devices := ApproveWhere(db.devices, uuid);
    r := Ok(OK);
  }
}
