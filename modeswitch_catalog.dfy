/**
 * The device catalog of the mode-switch tool: the table of storage-mode ("ZeroCD") product
 * identifiers that need switching, the table of modem-mode identifiers looked for afterwards, the
 * labels printed for them, and the device choice and role counting built on the tables.
 */
module ModeSwitchCatalog {
  import opened Basics
  import opened PidTables

  const HUAWEI_VENDOR_ID: u16 := 0x12D1

  // Storage-mode identifiers, in the three groups the table lists them in.
  const ZeroCdClassic: seq<u16> := [0x1446, 0x14fe, 0x1520, 0x1505, 0x14D1, 0x1c0b]
  const ZeroCdLte: seq<u16> := [0x1f01, 0x1da1, 0x1f1e, 0x15ca]
  const ZeroCdOther: seq<u16> :=
    [0x1521, 0x1575, 0x157c, 0x157d, 0x1582, 0x1583, 0x1588, 0x15b6, 0x1c1b]
  const ZeroCdEntries: seq<u16> := ZeroCdClassic + ZeroCdLte + ZeroCdOther
  /** `zerocd_pids[]`, with its 0 sentinel. */
  const ZeroCdPids: seq<u16> := ZeroCdEntries + [0]

  // Modem-mode identifiers, in the four groups the table lists them in.
  const ModemClassic: seq<u16> :=
    [0x1001, 0x1003, 0x140c, 0x1406, 0x1436, 0x1465, 0x14AC, 0x14C6, 0x14C9, 0x1c05, 0x1c07]
  const ModemE3: seq<u16> := [0x1506, 0x14db]
  const ModemLte: seq<u16> := [0x1442, 0x14dc, 0x155e, 0x157f, 0x1592, 0x15c1, 0x1573, 0x1576]
  const ModemLegacy: seq<u16> := [0x1404, 0x1411, 0x141b, 0x1464, 0x14ba]
  const ModemEntries: seq<u16> := ModemClassic + ModemE3 + ModemLte + ModemLegacy
  /** `modem_pids[]`, with its 0 sentinel. */
  const ModemPids: seq<u16> := ModemEntries + [0]

  const UNKNOWN_LABEL := "Unknown Huawei"

  /** `get_pid_name`: the label printed for a product identifier. */
  function PidName(pid: u16): string {
    match pid
    case 0x1446 => "E1550/E1756/E173 ZeroCD"
    case 0x14FE => "E303/E3131 Intermediate"
    case 0x1f01 => "E3131/E3372/E8372 ZeroCD"
    case 0x1520 => "K3765 ZeroCD"
    case 0x1505 => "E3131/E398 ZeroCD"
    case 0x14D1 => "E173 ZeroCD"
    case 0x1c0b => "E3531 ZeroCD"
    case 0x1da1 => "E3372 ZeroCD"
    case 0x1f1e => "K5160 ZeroCD"
    case 0x15ca => "E3131h-2 ZeroCD"
    case 0x1521 => "K4505 ZeroCD"
    case 0x1575 => "K5150 ZeroCD"
    case 0x157c => "E3276 ZeroCD"
    case 0x157d => "E3276 ZeroCD Alt"
    case 0x1582 => "E8278 ZeroCD"
    case 0x1583 => "E8278 ZeroCD Alt"
    case 0x1588 => "E3372 Variant ZeroCD"
    case 0x15b6 => "E3331 ZeroCD"
    case 0x1001 => "E169/E620/E800/E1550 Modem"
    case 0x1003 => "E1550 Modem"
    case 0x140c => "E180/E1550 Modem"
    case 0x1406 => "E1750 Modem"
    case 0x1436 => "E173/E1750 Modem"
    case 0x1465 => "K3765 Modem"
    case 0x14AC => "E1820 Modem"
    case 0x14C6 => "K4605 Modem"
    case 0x14C9 => "K4505 Modem"
    case 0x1c05 => "E173 Modem"
    case 0x1c07 => "E173s Modem"
    case 0x1c1b => "E3531 Modem"
    case 0x1506 => "E303/E3131/MS2372 Modem"
    case 0x14db => "E3131/E353 HiLink"
    case 0x1442 => "E3372 Stick"
    case 0x14dc => "E3372/E8372 HiLink"
    case 0x155e => "E8372 NCM"
    case 0x157f => "E8372 Alt"
    case 0x1592 => "E8372h"
    case 0x15c1 => "ME906s LTE"
    case 0x1573 => "K5150 Modem"
    case 0x1576 => "K5160 Modem"
    case 0x1404 => "E1752 Modem"
    case 0x1411 => "E510 Modem"
    case 0x141b => "E1752 Alt"
    case 0x1464 => "K4510/K4511 Modem"
    case 0x14ba => "E173 Alt"
    case _ => UNKNOWN_LABEL
  }

  /** Membership in the storage-mode table, as the table's entries define it. */
  predicate InZeroCdTable(pid: u16) {
    pid in Entries(ZeroCdPids)
  }

  /** Membership in the modem-mode table, as the table's entries define it. */
  predicate InModemTable(pid: u16) {
    pid in Entries(ModemPids)
  }

  /** Each table ends in its sentinel and nowhere before it, so its entries are the listed groups. */
  lemma TableEntries()
    ensures Entries(ZeroCdPids) == ZeroCdEntries && |ZeroCdEntries| == 19
    ensures Entries(ModemPids) == ModemEntries && |ModemEntries| == 26
    ensures ZeroCdPids[|ZeroCdPids| - 1] == 0 && ModemPids[|ModemPids| - 1] == 0
  {
    NoSentinel();
    EntriesOfTerminated(ZeroCdEntries);
    EntriesOfTerminated(ModemEntries);
  }

  /** No group lists the sentinel. */
  lemma NoSentinel()
    ensures 0 !in ZeroCdEntries && 0 !in ModemEntries
  {
    assert 0 !in ZeroCdClassic && 0 !in ZeroCdLte && 0 !in ZeroCdOther;
    assert 0 !in ModemClassic && 0 !in ModemE3 && 0 !in ModemLte && 0 !in ModemLegacy;
  }

  /** The storage-mode table lists every identifier once. */
  lemma ZeroCdTableDistinct()
    ensures Distinct(ZeroCdEntries)
  {
    DistinctAppend(ZeroCdClassic, ZeroCdLte);
    DistinctAppend(ZeroCdClassic + ZeroCdLte, ZeroCdOther);
  }

  /** The modem table lists every identifier once. */
  lemma ModemTableDistinct()
    ensures Distinct(ModemEntries)
  {
    DistinctAppend(ModemClassic, ModemE3);
    ModemLteIsNew();
    DistinctAppend(ModemClassic + ModemE3, ModemLte);
    ModemLegacyIsNew();
    DistinctAppend(ModemClassic + ModemE3 + ModemLte, ModemLegacy);
  }

  // Each later modem group lists identifiers the earlier groups do not.
  lemma ModemLteIsNew()
    ensures forall p :: p in ModemClassic + ModemE3 ==> p !in ModemLte
  {
  }

  lemma ModemLegacyIsNew()
    ensures forall p :: p in ModemClassic + ModemE3 + ModemLte ==> p !in ModemLegacy
  {
  }

  /** Membership in a table is membership in one of its groups. */
  lemma TableGroups(pid: u16)
    ensures InZeroCdTable(pid) <==> pid in ZeroCdClassic || pid in ZeroCdLte || pid in ZeroCdOther
    ensures InModemTable(pid) <==> pid in ModemClassic || pid in ModemE3 || pid in ModemLte || pid in ModemLegacy
  {
    TableEntries();
  }

  /** No identifier is in both tables. */
  lemma TablesDisjoint()
    ensures forall p :: p in ZeroCdEntries ==> p !in ModemEntries
  {
    ClassicNotModem();
    LteNotModem();
    OtherNotModemHead();
    OtherNotModemTail();
  }

  // The storage-mode groups, one at a time, against the modem table.
  lemma ClassicNotModem()
    ensures forall p :: p in ZeroCdClassic ==> p !in ModemEntries
  {
  }

  lemma LteNotModem()
    ensures forall p :: p in ZeroCdLte ==> p !in ModemEntries
  {
  }

  lemma OtherNotModemHead()
    ensures forall p :: p in ZeroCdOther[..5] ==> p !in ModemEntries
  {
  }

  lemma OtherNotModemTail()
    ensures forall p :: p in ZeroCdOther[5..] ==> p !in ModemEntries
  {
  }

  /** PID 0 is never a member, and no identifier is in both tables. */
  lemma MembershipExclusive(pid: u16)
    ensures !InZeroCdTable(0) && !InModemTable(0)
    ensures !(InZeroCdTable(pid) && InModemTable(pid))
  {
    TableEntries();
    TablesDisjoint();
  }

  /** A label other than the default is given exactly to the identifiers of the two tables. */
  lemma LabelledExactlyTheTables(pid: u16)
    ensures PidName(pid) != UNKNOWN_LABEL <==> InZeroCdTable(pid) || InModemTable(pid)
  {
    TableGroups(pid);
    if pid in ZeroCdClassic || pid in ZeroCdLte {
      ZeroCdHeadLabelled(pid);
    } else if pid in ZeroCdOther {
      ZeroCdOtherLabelled(pid);
    } else if pid in ModemClassic {
      ModemClassicLabelled(pid);
    } else if pid in ModemE3 || pid in ModemLegacy {
      ModemShortGroupsLabelled(pid);
    } else if pid in ModemLte {
      ModemLteLabelled(pid);
    } else {
      UnlistedUnlabelled(pid);
    }
  }

  // Each group's identifiers have their own label.
  lemma ZeroCdHeadLabelled(pid: u16)
    requires pid in ZeroCdClassic || pid in ZeroCdLte
    ensures PidName(pid) != UNKNOWN_LABEL
  {
  }

  lemma ZeroCdOtherLabelled(pid: u16)
    requires pid in ZeroCdOther
    ensures PidName(pid) != UNKNOWN_LABEL
  {
  }

  lemma ModemClassicLabelled(pid: u16)
    requires pid in ModemClassic
    ensures PidName(pid) != UNKNOWN_LABEL
  {
  }

  lemma ModemShortGroupsLabelled(pid: u16)
    requires pid in ModemE3 || pid in ModemLegacy
    ensures PidName(pid) != UNKNOWN_LABEL
  {
  }

  lemma ModemLteLabelled(pid: u16)
    requires pid in ModemLte
    ensures PidName(pid) != UNKNOWN_LABEL
  {
  }

  /** An identifier neither table lists falls to the default label. */
  lemma UnlistedUnlabelled(pid: u16)
    requires pid !in ZeroCdEntries && pid !in ModemEntries
    ensures PidName(pid) == UNKNOWN_LABEL
  {
  }

  /** 0x1506 is labelled as the E303 modem; 0x1c1b's label calls it a modem as well. */
  lemma LabelScenarios()
    ensures PidName(0x1506) == "E303/E3131/MS2372 Modem"
    ensures PidName(0x1446) == "E1550/E1756/E173 ZeroCD"
    ensures PidName(0x1c1b) == "E3531 Modem"
    ensures PidName(0x0001) == UNKNOWN_LABEL
  {
  }

  /** 0x1506 is a modem identifier and not a storage-mode one. */
  lemma E303IsModem()
    ensures InModemTable(0x1506) && !InZeroCdTable(0x1506)
  {
    TableGroups(0x1506);
  }

  /** 0x1446 is a storage-mode identifier and not a modem one. */
  lemma E1550IsZeroCd()
    ensures InZeroCdTable(0x1446) && !InModemTable(0x1446)
  {
    TableGroups(0x1446);
  }

  /** 0x1c1b, whatever its label says, is in the storage-mode table only. */
  lemma E3531IsZeroCd()
    ensures InZeroCdTable(0x1c1b) && !InModemTable(0x1c1b)
  {
    TableGroups(0x1c1b);
  }

  /** `is_zerocd_pid`. */
  method IsZeroCdPid(pid: u16) returns (b: bool)
    ensures b <==> pid != 0 && pid in ZeroCdEntries
  {
    TableEntries();
    b := TableContains(ZeroCdPids, pid);
  }

  /** `is_modem_pid`. */
  method IsModemPid(pid: u16) returns (b: bool)
    ensures b <==> pid != 0 && pid in ModemEntries
  {
    TableEntries();
    b := TableContains(ModemPids, pid);
  }

  /** `find_zerocd_device`: the first storage-mode identifier, in table order, that opens. */
  method FindZeroCdDevice(openable: set<u16>) returns (found: Option<u16>)
    ensures found.None? <==> forall i :: 0 <= i < |ZeroCdEntries| ==> ZeroCdEntries[i] !in openable
    ensures found.Some? ==> exists k :: 0 <= k < |ZeroCdEntries| && ZeroCdEntries[k] == found.value &&
                                        found.value in openable &&
                                        forall i :: 0 <= i < k ==> ZeroCdEntries[i] !in openable
  {
    TableEntries();
    found := FindFirstPresent(ZeroCdPids, openable);
  }

  /**
   * The device choice of the tool's entry point: a forced identifier is the only one tried;
   * otherwise the storage-mode table is scanned.
   */
  method SelectDevice(forcePid: u16, openable: set<u16>) returns (found: Option<u16>)
    ensures forcePid != 0 ==> found == (if forcePid in openable then Some(forcePid) else None)
    ensures forcePid == 0 ==> found == FirstPresent(ZeroCdEntries, openable)
  {
    if forcePid != 0 {
      found := if forcePid in openable then Some(forcePid) else None;
    } else {
      TableEntries();
      found := FindFirstPresent(ZeroCdPids, openable);
    }
  }

  /** The part of a device descriptor the enumeration reads. */
  datatype DeviceDescriptor = DeviceDescriptor(vendorId: u16, productId: u16)

  datatype Role = ZeroCd | Modem | Unlisted

  /**
   * The role a listed device is counted under: storage mode wins, modem only when the identifier
   * is not also a storage-mode one; devices of other vendors are not Huawei devices at all.
   */
  function RoleOf(d: DeviceDescriptor): Option<Role> {
    if d.vendorId != HUAWEI_VENDOR_ID then None
    else if InZeroCdTable(d.productId) then Some(ZeroCd)
    else if InModemTable(d.productId) then Some(Modem)
    else Some(Unlisted)
  }

  /** How many of the devices have the given role. */
  function CountRole(devs: seq<DeviceDescriptor>, role: Role): nat {
    if devs == [] then 0
    else CountRole(devs[..|devs| - 1], role) + (if RoleOf(devs[|devs| - 1]) == Some(role) then 1 else 0)
  }

  /** How many devices are Huawei devices whose product identifier satisfies `inTable`. */
  function CountHuawei(devs: seq<DeviceDescriptor>, inTable: u16 -> bool): nat {
    if devs == [] then 0
    else
      var d := devs[|devs| - 1];
      CountHuawei(devs[..|devs| - 1], inTable) + (if d.vendorId == HUAWEI_VENDOR_ID && inTable(d.productId) then 1 else 0)
  }

  /**
   * Because the tables are disjoint, the modem count is the number of Huawei devices in the modem
   * table and the storage-mode count the number in the storage-mode table; together they never
   * exceed the number of Huawei devices.
   */
  lemma {:induction false} CountsByTable(devs: seq<DeviceDescriptor>)
    ensures CountRole(devs, ZeroCd) == CountHuawei(devs, InZeroCdTable)
    ensures CountRole(devs, Modem) == CountHuawei(devs, InModemTable)
    ensures CountRole(devs, ZeroCd) + CountRole(devs, Modem) <= CountHuawei(devs, _ => true)
  {
    if devs != [] {
      CountsByTable(devs[..|devs| - 1]);
      MembershipExclusive(devs[|devs| - 1].productId);
    }
  }

  /** The counting loop of `scan_huawei_devices`. */
  method ScanHuaweiDevices(devs: seq<DeviceDescriptor>) returns (foundZeroCd: nat, foundModem: nat)
    ensures foundZeroCd == CountRole(devs, ZeroCd) && foundModem == CountRole(devs, Modem)
  {
    TableEntries();
    foundZeroCd, foundModem := 0, 0;
    for i := 0 to |devs|
      invariant foundZeroCd == CountRole(devs[..i], ZeroCd)
      invariant foundModem == CountRole(devs[..i], Modem)
    {
      assert devs[..i + 1][..i] == devs[..i];
      var desc := devs[i];
      if desc.vendorId == HUAWEI_VENDOR_ID {
        var zerocd := IsZeroCdPid(desc.productId);
        if zerocd {
          foundZeroCd := foundZeroCd + 1;
        } else {
          var modem := IsModemPid(desc.productId);
          if modem {
            foundModem := foundModem + 1;
          }
        }
      }
    }
    assert devs[..|devs|] == devs;
  }
}
