/** The device management page: the device list derived from the samples
    when no device file exists, the three-field search, and the add / edit /
    delete form. */
module Devices {
  import opened Lists
  import opened Text
  import opened Samples

  datatype Device = Device(id: string, deviceId: string, location: string, state: string, status: string)

  /** The form's fields. The form never carries an id of its own: submitting
      always sets one. */
  datatype Form = Form(deviceId: string, location: string, state: string, status: string)

  const Active: string := "active"
  const EmptyForm: Form := Form("", "", "", Active)

  /** `{ ...formData, id }`. */
  function WithId(f: Form, id: string): (d: Device)
    ensures d.id == id && FormOf(d) == f
  {
    Device(id, f.deviceId, f.location, f.state, f.status)
  }

  /** The fields of a device that the form edits. */
  function FormOf(d: Device): Form {
    Form(d.deviceId, d.location, d.state, d.status)
  }

  // ------------------------------------------- devices derived from samples

  /** The position of the first sample recorded by device `id`
      (`samples.find(s => s.deviceId === id)`). */
  function FirstSampleOf(samples: seq<Sample>, id: string): (k: nat)
    requires id in DeviceIdsOf(samples)
    ensures k < |samples| && samples[k].deviceId == id
    ensures forall j :: 0 <= j < k ==> samples[j].deviceId != id
  {
    FirstIndex(DeviceIdsOf(samples), id)
  }

  /** The active device for id `id`, placed where its first sample was taken. */
  function DeviceFor(samples: seq<Sample>, id: string): Device
    requires id in DeviceIdsOf(samples)
  {
    var s := samples[FirstSampleOf(samples, id)];
    Device(id, id, s.location, s.state, Active)
  }

  /** The fallback device list: one device per distinct device id of the
      samples, in first-seen order, named by that id and active. */
  function UniqueDevices(samples: seq<Sample>): (r: seq<Device>)
    ensures |r| == |Dedup(DeviceIdsOf(samples))|
    ensures forall i :: 0 <= i < |r| ==>
      r[i].id == Dedup(DeviceIdsOf(samples))[i] && r[i].deviceId == r[i].id && r[i].status == Active
  {
    var ids := Dedup(DeviceIdsOf(samples));
    seq(|ids|, i requires 0 <= i < |ids| => DeviceFor(samples, ids[i]))
  }

  /** Every device id of the samples has exactly one device, and the devices
      come in the order their ids were first seen. */
  lemma UniqueDevicesOnePerId(samples: seq<Sample>)
    ensures forall s :: s in samples ==>
      exists i :: 0 <= i < |UniqueDevices(samples)| && UniqueDevices(samples)[i].id == s.deviceId
    ensures forall i, j :: 0 <= i < j < |UniqueDevices(samples)| ==>
      UniqueDevices(samples)[i].id != UniqueDevices(samples)[j].id
    ensures forall i, j :: 0 <= i < j < |UniqueDevices(samples)| ==>
      FirstSampleOf(samples, UniqueDevices(samples)[i].id) < FirstSampleOf(samples, UniqueDevices(samples)[j].id)
  {
    var ids := Dedup(DeviceIdsOf(samples));
    var r := UniqueDevices(samples);
    DedupFirstSeenOrder(DeviceIdsOf(samples));
    forall s | s in samples ensures exists i :: 0 <= i < |r| && r[i].id == s.deviceId {
      var k :| 0 <= k < |samples| && samples[k] == s;
      assert DeviceIdsOf(samples)[k] == s.deviceId;
      assert s.deviceId in ids;
      var i :| 0 <= i < |ids| && ids[i] == s.deviceId;
      assert r[i].id == s.deviceId;
    }
  }

  /** Each derived device is placed where the first sample carrying its id
      was taken: it copies that sample's location and state. */
  lemma UniqueDeviceTakesFirstSample(samples: seq<Sample>, i: nat, k: nat)
    requires i < |UniqueDevices(samples)|
    requires k < |samples| && samples[k].deviceId == UniqueDevices(samples)[i].id
    requires forall j :: 0 <= j < k ==> samples[j].deviceId != samples[k].deviceId
    ensures UniqueDevices(samples)[i].location == samples[k].location
    ensures UniqueDevices(samples)[i].state == samples[k].state
  {
    var id := samples[k].deviceId;
    assert DeviceIdsOf(samples)[k] == id;
    assert FirstSampleOf(samples, id) == k;
  }

  // ---------------------------------------------------------------- search

  /** A device is listed when its lower-cased device id, location or state
      contains the lower-cased search term. */
  predicate DeviceMatches(d: Device, term: string): (r: bool)
    ensures r <==> Contains(Lower(d.deviceId), Lower(term)) || Contains(Lower(d.location), Lower(term))
                   || Contains(Lower(d.state), Lower(term))
  {
    Includes(Lower(d.deviceId), Lower(term))
    || Includes(Lower(d.location), Lower(term))
    || Includes(Lower(d.state), Lower(term))
  }

  /** `filteredDevices`. */
  function SearchDevices(devices: seq<Device>, term: string): (r: seq<Device>)
    ensures forall d :: d in r <==> d in devices && DeviceMatches(d, term)
    ensures forall d :: multiset(r)[d] ==
                        (if DeviceMatches(d, term) then multiset(devices)[d] else 0)
  {
    SelectCount(devices, d => DeviceMatches(d, term));
    Select(devices, d => DeviceMatches(d, term))
  }

  /** An empty search lists every device, in order. */
  lemma EmptySearchListsAll(devices: seq<Device>)
    ensures SearchDevices(devices, "") == devices
  {
    forall d | d in devices ensures DeviceMatches(d, "") {
      IncludesEmpty(Lower(d.deviceId));
    }
    SelectKeepsAll(devices, d => DeviceMatches(d, ""));
  }

  // ------------------------------------------------------- list operations

  /** `devices.map(d => d.id === id ? { ...form, id } : d)`: every device with
      that id takes the form's fields, keeping its id and its place; the
      others are untouched. */
  function ReplaceById(devices: seq<Device>, id: string, f: Form): (r: seq<Device>)
    ensures |r| == |devices|
    ensures forall i :: 0 <= i < |r| ==> r[i].id == devices[i].id
    ensures forall i :: 0 <= i < |r| && devices[i].id == id ==> FormOf(r[i]) == f
    ensures forall i :: 0 <= i < |r| && devices[i].id != id ==> r[i] == devices[i]
  {
    seq(|devices|, i requires 0 <= i < |devices| =>
      if devices[i].id == id then WithId(f, id) else devices[i])
  }

  /** Editing the same device twice keeps only the second edit. */
  lemma ReplaceTwice(devices: seq<Device>, id: string, f: Form, g: Form)
    ensures ReplaceById(ReplaceById(devices, id, f), id, g) == ReplaceById(devices, id, g)
  {
  }

  /** `devices.filter(d => d.id !== id)`: the devices with that id are gone,
      the rest keep their order. */
  function RemoveById(devices: seq<Device>, id: string): (r: seq<Device>)
    ensures forall d :: d in r <==> d in devices && d.id != id
    ensures forall d: Device :: d.id != id ==> multiset(r)[d] == multiset(devices)[d]
  {
    SelectCount(devices, (d: Device) => d.id != id);
    Select(devices, (d: Device) => d.id != id)
  }

  /** Deleting an id twice is the same as deleting it once. */
  lemma RemoveIdempotent(devices: seq<Device>, id: string)
    ensures RemoveById(RemoveById(devices, id), id) == RemoveById(devices, id)
  {
    SelectIdempotent(devices, (d: Device) => d.id != id);
  }

  /** Adding and then deleting a device whose id was new gives back the list. */
  lemma AddThenRemove(devices: seq<Device>, f: Form, freshId: string)
    requires forall d :: d in devices ==> d.id != freshId
    ensures RemoveById(devices + [WithId(f, freshId)], freshId) == devices
  {
    SelectAppend(devices, [WithId(f, freshId)], (d: Device) => d.id != freshId);
    SelectKeepsAll(devices, (d: Device) => d.id != freshId);
  }

  // ------------------------------------------------------------ page state

  class AdminPanel {
    var devices: seq<Device>
    var searchTerm: string
    var showModal: bool
    var editingDevice: Option<Device>
    var formData: Form

    /** The page once its device list is loaded. */
    constructor (devices: seq<Device>)
      ensures this.devices == devices
      ensures searchTerm == "" && !showModal && editingDevice == None && formData == EmptyForm
    {
      this.devices := devices;
      searchTerm := "";
      showModal := false;
      editingDevice := None;
      formData := EmptyForm;
    }

    /** The devices the table lists. */
    function FilteredDevices(): seq<Device>
      reads this
    {
      SearchDevices(devices, searchTerm)
    }

    method SetSearchTerm(term: string)
      modifies this`searchTerm
      ensures searchTerm == term
    {
      searchTerm := term;
    }

    /** The "Add Device" button only opens the modal. */
    method OpenModal()
      modifies this`showModal
      ensures showModal
    {
      showModal := true;
    }

    /** The four form inputs each replace one field of the form. */
    method SetFormDeviceId(v: string)
      modifies this`formData
      ensures formData == old(formData).(deviceId := v)
    {
      formData := formData.(deviceId := v);
    }

    method SetFormLocation(v: string)
      modifies this`formData
      ensures formData == old(formData).(location := v)
    {
      formData := formData.(location := v);
    }

    method SetFormState(v: string)
      modifies this`formData
      ensures formData == old(formData).(state := v)
    {
      formData := formData.(state := v);
    }

    method SetFormStatus(v: string)
      modifies this`formData
      ensures formData == old(formData).(status := v)
    {
      formData := formData.(status := v);
    }

    /** `resetForm`, also the modal's close and Cancel action. */
    method ResetForm()
      modifies this`formData, this`editingDevice, this`showModal
      ensures formData == EmptyForm && editingDevice == None && !showModal
    {
      formData := EmptyForm;
      editingDevice := None;
      showModal := false;
    }

    /** `handleEdit`: remembers the device, loads it into the form and opens
        the modal. */
    method HandleEdit(d: Device)
      modifies this`formData, this`editingDevice, this`showModal
      ensures editingDevice == Some(d) && formData == FormOf(d) && showModal
    {
      editingDevice := Some(d);
      formData := FormOf(d);
      showModal := true;
    }

    /** `handleSubmit`: while editing, the edited id takes the form's fields;
        otherwise the form is appended under `freshId`, the text of
        `Date.now()`. Then the form is reset. */
    method HandleSubmit(freshId: string)
      modifies this`devices, this`formData, this`editingDevice, this`showModal
      ensures old(editingDevice).Some? ==>
        devices == ReplaceById(old(devices), old(editingDevice).value.id, old(formData))
      ensures old(editingDevice).None? ==>
        devices == old(devices) + [WithId(old(formData), freshId)]
      ensures formData == EmptyForm && editingDevice == None && !showModal
    {
      if editingDevice.Some? {
        devices := ReplaceById(devices, editingDevice.value.id, formData);
      } else {
        devices := devices + [WithId(formData, freshId)];
      }
      ResetForm();
    }

    /** Submitting the modal's form: the browser runs `handleSubmit` only
        when the three `required` inputs (device id, location, state) are
        filled in; otherwise nothing changes. */
    method SubmitForm(freshId: string) returns (submitted: bool)
      modifies this`devices, this`formData, this`editingDevice, this`showModal
      ensures submitted <==> old(formData).deviceId != "" && old(formData).location != "" && old(formData).state != ""
      ensures submitted && old(editingDevice).Some? ==>
        devices == ReplaceById(old(devices), old(editingDevice).value.id, old(formData))
      ensures submitted && old(editingDevice).None? ==>
        devices == old(devices) + [WithId(old(formData), freshId)]
      ensures submitted ==> formData == EmptyForm && editingDevice == None && !showModal
      ensures !submitted ==> unchanged(this)
    {
      submitted := formData.deviceId != "" && formData.location != "" && formData.state != "";
      if submitted {
        HandleSubmit(freshId);
      }
    }

    /** `handleDelete`: `confirmed` is the answer to the browser's
        confirmation dialog. */
    method HandleDelete(id: string, confirmed: bool)
      modifies this`devices
      ensures devices == if confirmed then RemoveById(old(devices), id) else old(devices)
    {
      if confirmed {
        devices := RemoveById(devices, id);
      }
    }
  }
}
