/** Persistent settings: address, serial number and class are loaded into
    the device model at start-up when the store holds them, and each save
    writes the store and the model. The store is a map from key to 16-bit
    value; the class setter, whose body is not part of this model, is a
    parameter returning its status, the model it leaves and the corrected
    class. */
module Configuration {
  import opened Ints
  import DeviceModel

  const ADDRESS_KEY: string := "indirizzo"
  const SERIAL_NUM_KEY: string := "numeroseriale"
  const CLASS_KEY: string := "CLASS"

  type Storage = map<string, u16>

  /** Result of the class setter: 0 on success. */
  datatype ClassOutcome = ClassOutcome(status: int, model: DeviceModel.Model, corrected: u16)

  type ClassSetter = (DeviceModel.Model, u16) -> ClassOutcome

  /** Model and store after a save that reports nothing (a `void` save). */
  datatype Stored = Stored(model: DeviceModel.Model, storage: Storage)

  /** Status, model and store after the class save: 0 on success, -1 otherwise. */
  datatype Saved = Saved(status: int, model: DeviceModel.Model, storage: Storage)

  /** Address and serial number, each applied only when the store holds it. */
  function LoadIdentity(m: DeviceModel.Model, st: Storage): (r: DeviceModel.Model)
    ensures r.address == (if ADDRESS_KEY in st then st[ADDRESS_KEY] else m.address)
    ensures r.serialNumber == (if SERIAL_NUM_KEY in st then st[SERIAL_NUM_KEY] else m.serialNumber)
    ensures r == m.(address := r.address, serialNumber := r.serialNumber)
  {
    var m1 := if ADDRESS_KEY in st then DeviceModel.Set(m, DeviceModel.Address, st[ADDRESS_KEY]) else m;
    if SERIAL_NUM_KEY in st then DeviceModel.Set(m1, DeviceModel.SerialNumber, st[SERIAL_NUM_KEY]) else m1
  }

  /** Start-up load; a stored class goes through the class setter, whose
      status is ignored. */
  function Init(m: DeviceModel.Model, st: Storage, setClass: ClassSetter): (r: DeviceModel.Model)
    ensures CLASS_KEY !in st ==> r == LoadIdentity(m, st)
    ensures CLASS_KEY in st ==> r == setClass(LoadIdentity(m, st), st[CLASS_KEY]).model
  {
    var m1 := LoadIdentity(m, st);
    if CLASS_KEY in st then setClass(m1, st[CLASS_KEY]).model else m1
  }

  /** Persist and apply a serial number. */
  function SaveSerialNumber(m: DeviceModel.Model, st: Storage, v: u16): (r: Stored)
    ensures r.storage == st[SERIAL_NUM_KEY := v]
    ensures r.model == m.(serialNumber := v)
  {
    Stored(DeviceModel.Set(m, DeviceModel.SerialNumber, v), st[SERIAL_NUM_KEY := v])
  }

  /** Persist and apply an address; no range check at this layer. */
  function SaveAddress(m: DeviceModel.Model, st: Storage, v: u16): (r: Stored)
    ensures r.storage == st[ADDRESS_KEY := v]
    ensures r.model == m.(address := v)
  {
    Stored(DeviceModel.Set(m, DeviceModel.Address, v), st[ADDRESS_KEY := v])
  }

  /** Apply a class through the class setter; persist the corrected class
      only when the setter succeeds. */
  function SaveClass(m: DeviceModel.Model, st: Storage, v: u16, setClass: ClassSetter): (r: Saved)
    ensures setClass(m, v).status == 0 ==>
              r.status == 0 && r.storage == st[CLASS_KEY := setClass(m, v).corrected]
    ensures setClass(m, v).status != 0 ==> r.status == -1 && r.storage == st
    ensures r.model == setClass(m, v).model
  {
    var outcome := setClass(m, v);
    if outcome.status == 0 then Saved(0, outcome.model, st[CLASS_KEY := outcome.corrected])
    else Saved(-1, outcome.model, st)
  }

  /** A saved address and serial number survive a restart: loading the
      store into any model yields the saved values. */
  lemma IdentitySurvivesReload(m: DeviceModel.Model, st: Storage, address: u16, serial: u16, restarted: DeviceModel.Model)
    ensures var a := SaveAddress(m, st, address);
            var s := SaveSerialNumber(a.model, a.storage, serial);
            var reloaded := LoadIdentity(restarted, s.storage);
            && reloaded.address == address == s.model.address
            && reloaded.serialNumber == serial == s.model.serialNumber
  {
  }

  /** A stored class reaches the class setter on restart as the corrected
      value of the last successful save; a failed save leaves the store as
      it was. */
  lemma ClassSurvivesReload(m: DeviceModel.Model, st: Storage, v: u16, setClass: ClassSetter, restarted: DeviceModel.Model)
    requires setClass(m, v).status == 0
    ensures var s := SaveClass(m, st, v, setClass);
            Init(restarted, s.storage, setClass)
              == setClass(LoadIdentity(restarted, s.storage), setClass(m, v).corrected).model
  {
  }

  /** Start-up touches no field the store does not hold (no class stored). */
  lemma EmptyStoreKeepsModel(m: DeviceModel.Model, setClass: ClassSetter)
    ensures Init(m, map[], setClass) == m
  {
  }
}
