/**
 * The device catalog of the AT command tool: the table of modem identifiers it tries, in priority
 * order, the labels it prints, and the choice of the device to talk to.
 */
module AtCatalog {
  import opened Basics
  import opened PidTables
  import ModeSwitchCatalog

  // The supported identifiers, in the six groups the table lists them in.
  const SupportedClassic: seq<u16> :=
    [0x1001, 0x1003, 0x140c, 0x1406, 0x1436, 0x1465, 0x14AC, 0x14C6, 0x14C9, 0x1c05, 0x1c07, 0x1c1b]
  const SupportedE3: seq<u16> := [0x1506, 0x14db, 0x14fe, 0x15ca, 0x1f01]
  const SupportedLte: seq<u16> := [0x1442, 0x14dc, 0x155e, 0x157f, 0x1592]
  const SupportedK: seq<u16> := [0x1505, 0x1520, 0x1521, 0x1575, 0x15c1]
  const SupportedWiFi: seq<u16> := [0x1f1e]
  const SupportedLegacy: seq<u16> := [0x1404, 0x1411, 0x141b, 0x1446, 0x1464, 0x14ba, 0x14d1, 0x1c0b, 0x1da1]
  const SupportedEntries: seq<u16> :=
    SupportedClassic + SupportedE3 + SupportedLte + SupportedK + SupportedWiFi + SupportedLegacy
  /** `supported_pids[]`, with its 0 sentinel. */
  const SupportedPids: seq<u16> := SupportedEntries + [0]

  const UNKNOWN_LABEL := "Unknown Huawei"

  /** `get_pid_name` of the AT tool. */
  function PidName(pid: u16): string {
    match pid
    case 0x1001 => "E169/E620/E800/E1550"
    case 0x1003 => "E1550 Modem"
    case 0x140c => "E180/E1550"
    case 0x1406 => "E1750"
    case 0x1436 => "E173/E1750"
    case 0x1446 => "E1756/E173"
    case 0x1465 => "K3765"
    case 0x14AC => "E1820"
    case 0x14C6 => "K4605"
    case 0x14C9 => "K4505"
    case 0x1c05 => "E173"
    case 0x1c07 => "E173s"
    case 0x1c1b => "E3531"
    case 0x1506 => "E303/E3131/MS2372"
    case 0x14db => "E3131/E353 HiLink"
    case 0x14fe => "E303/E3131 Intermediate"
    case 0x15ca => "E3131h-2"
    case 0x1f01 => "E353/E3131"
    case 0x1442 => "E3372 Stick"
    case 0x14dc => "E3372/E8372 HiLink"
    case 0x155e => "E8372 NCM"
    case 0x157f => "E8372 Alt"
    case 0x1592 => "E8372h"
    case 0x1505 => "E398/K5005 LTE"
    case 0x1520 => "K3765 HSPA"
    case 0x1521 => "K4505 HSPA+"
    case 0x1575 => "K5150 LTE"
    case 0x15c1 => "ME906s LTE"
    case 0x1f1e => "K5160"
    case 0x1404 => "E1752"
    case 0x1411 => "E510"
    case 0x141b => "E1752 Alt"
    case 0x1464 => "K4510/K4511"
    case 0x14ba => "E173 Alt"
    case 0x14d1 => "E173"
    case 0x1c0b => "E173s Off"
    case 0x1da1 => "E3372"
    case _ => UNKNOWN_LABEL
  }

  predicate Supported(pid: u16) {
    pid in Entries(SupportedPids)
  }

  /** No group lists the sentinel. */
  lemma SupportedNoSentinel()
    ensures 0 !in SupportedEntries
  {
    assert 0 !in SupportedClassic && 0 !in SupportedE3 && 0 !in SupportedLte;
    assert 0 !in SupportedK && 0 !in SupportedWiFi && 0 !in SupportedLegacy;
  }

  /** The table ends in its sentinel and nowhere before it, so its entries are the listed groups. */
  lemma SupportedTableEntries()
    ensures Entries(SupportedPids) == SupportedEntries && |SupportedEntries| == 37
    ensures SupportedPids[|SupportedPids| - 1] == 0
  {
    SupportedNoSentinel();
    EntriesOfTerminated(SupportedEntries);
  }

  /** The first three groups list every identifier once. */
  lemma SupportedHeadDistinct()
    ensures Distinct(SupportedClassic + SupportedE3 + SupportedLte)
  {
    DistinctAppend(SupportedClassic, SupportedE3);
    DistinctAppend(SupportedClassic + SupportedE3, SupportedLte);
  }

  /** The last three groups list every identifier once. */
  lemma SupportedTailDistinct()
    ensures Distinct(SupportedK + SupportedWiFi + SupportedLegacy)
  {
    DistinctAppend(SupportedK, SupportedWiFi);
    DistinctAppend(SupportedK + SupportedWiFi, SupportedLegacy);
  }

  /** The table lists every identifier once. */
  lemma SupportedTableDistinct()
    ensures Distinct(SupportedEntries)
  {
    var head := SupportedClassic + SupportedE3 + SupportedLte;
    var tail := SupportedK + SupportedWiFi + SupportedLegacy;
    SupportedHeadDistinct();
    SupportedTailDistinct();
    HeadNotInTail();
    assert SupportedEntries == head + tail;
    DistinctAppend(head, tail);
  }

  /** No identifier of the first three groups recurs in the last three. */
  lemma HeadNotInTail()
    ensures forall p :: p in SupportedClassic + SupportedE3 + SupportedLte ==>
                        p !in SupportedK + SupportedWiFi + SupportedLegacy
  {
    ClassicNotInTail();
    assert forall p :: p in SupportedE3 + SupportedLte ==> p !in SupportedK + SupportedWiFi + SupportedLegacy;
  }

  lemma ClassicNotInTail()
    ensures forall p :: p in SupportedClassic ==> p !in SupportedK + SupportedWiFi + SupportedLegacy
  {
  }

  /** Membership in the table is membership in one of its groups; PID 0 is never a member. */
  lemma SupportedGroups(pid: u16)
    ensures Supported(pid) <==> pid in SupportedClassic || pid in SupportedE3 || pid in SupportedLte ||
                                pid in SupportedK || pid in SupportedWiFi || pid in SupportedLegacy
    ensures !Supported(0)
  {
    SupportedTableEntries();
  }

  // Each group's identifiers have their own label.
  lemma ClassicLabelled(pid: u16)
    requires pid in SupportedClassic
    ensures PidName(pid) != UNKNOWN_LABEL
  {
  }

  lemma E3Labelled(pid: u16)
    requires pid in SupportedE3
    ensures PidName(pid) != UNKNOWN_LABEL
  {
  }

  lemma LteLabelled(pid: u16)
    requires pid in SupportedLte
    ensures PidName(pid) != UNKNOWN_LABEL
  {
  }

  lemma KLabelled(pid: u16)
    requires pid in SupportedK || pid in SupportedWiFi
    ensures PidName(pid) != UNKNOWN_LABEL
  {
  }

  lemma LegacyLabelled(pid: u16)
    requires pid in SupportedLegacy
    ensures PidName(pid) != UNKNOWN_LABEL
  {
  }

  /** An identifier the groups do not list falls to the default label. */
  lemma UnlistedUnlabelled(pid: u16)
    requires pid !in SupportedEntries
    ensures PidName(pid) == UNKNOWN_LABEL
  {
  }

  /** A label other than the default is given exactly to the supported identifiers. */
  lemma LabelledExactlyTheSupported(pid: u16)
    ensures PidName(pid) != UNKNOWN_LABEL <==> Supported(pid)
  {
    SupportedGroups(pid);
    if pid in SupportedClassic {
      ClassicLabelled(pid);
    } else if pid in SupportedE3 {
      E3Labelled(pid);
    } else if pid in SupportedLte {
      LteLabelled(pid);
    } else if pid in SupportedK || pid in SupportedWiFi {
      KLabelled(pid);
    } else if pid in SupportedLegacy {
      LegacyLabelled(pid);
    } else {
      UnlistedUnlabelled(pid);
    }
  }

  /**
   * Of the mode-switch tool's modem identifiers, the AT tool does not try exactly two: 0x1573
   * (K5150) and 0x1576 (K5160).
   */
  lemma ModemPidsNotSupported(pid: u16)
    ensures ModeSwitchCatalog.InModemTable(pid) && !Supported(pid) <==> pid == 0x1573 || pid == 0x1576
  {
    ModeSwitchCatalog.TableGroups(pid);
    SupportedGroups(pid);
  }

  /**
   * `find_huawei_modem`: a forced identifier is the only one tried; otherwise the first supported
   * identifier, in table order, that opens.
   */
  method FindHuaweiModem(forcePid: u16, openable: set<u16>) returns (found: Option<u16>)
    ensures forcePid != 0 ==> found == (if forcePid in openable then Some(forcePid) else None)
    ensures forcePid == 0 && found.None? ==> forall i :: 0 <= i < |SupportedEntries| ==> SupportedEntries[i] !in openable
    ensures forcePid == 0 && found.Some? ==>
              exists k :: 0 <= k < |SupportedEntries| && SupportedEntries[k] == found.value &&
                          found.value in openable &&
                          forall i :: 0 <= i < k ==> SupportedEntries[i] !in openable
  {
    if forcePid != 0 {
      if forcePid in openable {
        return Some(forcePid);
      }
      return None;
    }
    SupportedTableEntries();
    found := FindFirstPresent(SupportedPids, openable);
  }
}
