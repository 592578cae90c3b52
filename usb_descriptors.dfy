/**
 * The part of a USB configuration descriptor that both tools read, as a value: interfaces, each a
 * list of alternate settings, each with a class, an interface number and a list of endpoints.
 */
module UsbDescriptors {
  import opened Basics

  /** The transfer-type value of a bulk endpoint in the low two bits of bmAttributes. */
  const TRANSFER_TYPE_BULK: byte := 2

  /** The direction bit of bEndpointAddress; it is set on device-to-host (IN) endpoints. */
  const ENDPOINT_DIR_IN: byte := 0x80

  datatype Endpoint = Endpoint(address: byte, attributes: byte)

  datatype AltSetting = AltSetting(interfaceNumber: byte, interfaceClass: byte, endpoints: seq<Endpoint>)

  datatype Interface = Interface(altSettings: seq<AltSetting>)

  datatype Config = Config(interfaces: seq<Interface>)

  /** The outcome of reading the active configuration descriptor of a device. */
  datatype ConfigFetch = Fetched(config: Config) | FetchFailed(error: ErrorCode)

  /** `(bmAttributes & 0x03) == LIBUSB_TRANSFER_TYPE_BULK`; for a byte, `x & 3` is `x % 4`. */
  predicate IsBulk(e: Endpoint) {
    e.attributes % 4 == TRANSFER_TYPE_BULK
  }

  /** `bEndpointAddress & 0x80` is non-zero; for a byte this is `x >= 0x80`. */
  predicate IsIn(e: Endpoint) {
    e.address >= ENDPOINT_DIR_IN
  }

  predicate IsBulkIn(e: Endpoint) {
    IsBulk(e) && IsIn(e)
  }

  predicate IsBulkOut(e: Endpoint) {
    IsBulk(e) && !IsIn(e)
  }

  /** The alternate settings of the interfaces, in the order the nested loops over them visit them. */
  function Flatten(ifs: seq<Interface>): seq<AltSetting> {
    if ifs == [] then [] else Flatten(ifs[..|ifs| - 1]) + ifs[|ifs| - 1].altSettings
  }

  /** Every alternate setting of a configuration, in descriptor order. */
  function Settings(c: Config): seq<AltSetting> {
    Flatten(c.interfaces)
  }

  /** Visiting interface `i` after interfaces `0..i` appends its alternate settings. */
  lemma FlattenStep(ifs: seq<Interface>, i: nat)
    requires i < |ifs|
    ensures Flatten(ifs[..i + 1]) == Flatten(ifs[..i]) + ifs[i].altSettings
  {
    assert ifs[..i + 1][..i] == ifs[..i];
  }

  /** The settings of the first `i` interfaces come first in descriptor order. */
  lemma {:induction false} FlattenPrefix(ifs: seq<Interface>, i: nat)
    requires i <= |ifs|
    ensures Flatten(ifs[..i]) <= Flatten(ifs)
    decreases |ifs| - i
  {
    if i == |ifs| {
      assert ifs[..i] == ifs;
    } else {
      FlattenStep(ifs, i);
      FlattenPrefix(ifs, i + 1);
    }
  }
}
