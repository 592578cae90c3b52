/**
 * The mode-switch tool's endpoint search (`find_bulk_out_endpoint`): one bulk OUT endpoint,
 * looked for first among mass-storage alternate settings and then among all of them.
 */
module ModeSwitchEndpoint {
  import opened Basics
  import opened UsbDescriptors

  const CLASS_MASS_STORAGE: byte := 0x08

  /** Index of the first bulk OUT endpoint of `eps`; `|eps|` when there is none. */
  function FirstBulkOut(eps: seq<Endpoint>): (k: nat)
    ensures k <= |eps|
    ensures forall j :: 0 <= j < k ==> !IsBulkOut(eps[j])
    ensures k < |eps| ==> IsBulkOut(eps[k])
  {
    if eps == [] then 0
    else if IsBulkOut(eps[0]) then 0
    else
      var k := FirstBulkOut(eps[1..]);
      assert forall j :: 1 <= j < |eps| ==> eps[j] == eps[1..][j - 1];
      1 + k
  }

  predicate HasBulkOut(s: AltSetting) {
    FirstBulkOut(s.endpoints) < |s.endpoints|
  }

  /** A setting the search accepts: one with a bulk OUT endpoint, of mass-storage class if asked. */
  predicate Candidate(s: AltSetting, massStorageOnly: bool) {
    (!massStorageOnly || s.interfaceClass == CLASS_MASS_STORAGE) && HasBulkOut(s)
  }

  /** Index of the first candidate setting of `ss`; `|ss|` when there is none. */
  function FirstCandidate(ss: seq<AltSetting>, massStorageOnly: bool): (k: nat)
    ensures k <= |ss|
    ensures forall j :: 0 <= j < k ==> !Candidate(ss[j], massStorageOnly)
    ensures k < |ss| ==> Candidate(ss[k], massStorageOnly)
  {
    if ss == [] then 0
    else if Candidate(ss[0], massStorageOnly) then 0
    else
      var k := FirstCandidate(ss[1..], massStorageOnly);
      assert forall j :: 1 <= j < |ss| ==> ss[j] == ss[1..][j - 1];
      1 + k
  }

  /** The returned endpoint address and the interface number written to `*out_interface`. */
  datatype Target = Target(endpoint: int, interfaceNumber: int)

  const NO_TARGET := Target(-1, 0)

  /** What one pass of the search finds: the first bulk OUT endpoint of the first candidate. */
  function PassResult(ss: seq<AltSetting>, massStorageOnly: bool): Option<Target> {
    var k := FirstCandidate(ss, massStorageOnly);
    if k < |ss| then
      Some(Target(ss[k].endpoints[FirstBulkOut(ss[k].endpoints)].address, ss[k].interfaceNumber))
    else None
  }

  /** What the search returns for a configuration it could read: mass storage first, then any class. */
  function BulkOutTarget(c: Config): Target {
    match PassResult(Settings(c), true)
    case Some(t) => t
    case None =>
      match PassResult(Settings(c), false)
      case Some(t) => t
      case None => NO_TARGET
  }

  /** A setting that follows non-candidates in descriptor order and is a candidate is the pass result. */
  lemma PassResultAt(ss: seq<AltSetting>, seen: seq<AltSetting>, s: AltSetting, massStorageOnly: bool)
    requires seen + [s] <= ss
    requires forall j :: 0 <= j < |seen| ==> !Candidate(seen[j], massStorageOnly)
    requires Candidate(s, massStorageOnly)
    ensures PassResult(ss, massStorageOnly) ==
            Some(Target(s.endpoints[FirstBulkOut(s.endpoints)].address, s.interfaceNumber))
  {
    assert ss[|seen|] == (seen + [s])[|seen|] == s;
    assert forall j :: 0 <= j < |seen| ==> ss[j] == seen[j];
    var k := FirstCandidate(ss, massStorageOnly);
    assert k == |seen|;
  }

  /** No setting of `ss` is a candidate of the pass. */
  predicate NoCandidate(ss: seq<AltSetting>, massStorageOnly: bool) {
    forall j :: 0 <= j < |ss| ==> !Candidate(ss[j], massStorageOnly)
  }

  lemma NoCandidateStep(ss: seq<AltSetting>, s: AltSetting, massStorageOnly: bool)
    requires NoCandidate(ss, massStorageOnly) && !Candidate(s, massStorageOnly)
    ensures NoCandidate(ss + [s], massStorageOnly)
  {
    assert forall j :: 0 <= j < |ss| ==> (ss + [s])[j] == ss[j];
  }

  /**
   * One pass of the nested loops: interfaces, then their alternate settings, then endpoints; the
   * innermost loop stops at the first bulk OUT endpoint and the outer two as soon as one is found.
   */
  method SearchPass(c: Config, massStorageOnly: bool) returns (epOut: int, outInterface: int)
    ensures Target(epOut, outInterface) ==
            match PassResult(Settings(c), massStorageOnly) case Some(t) => t case None => NO_TARGET
  {
    epOut, outInterface := -1, 0;
    var ifs := c.interfaces;
    var i := 0;
    while i < |ifs| && epOut < 0
      invariant 0 <= i <= |ifs|
      invariant epOut < 0 ==> outInterface == 0 && epOut == -1 && NoCandidate(Flatten(ifs[..i]), massStorageOnly)
      invariant epOut >= 0 ==> PassResult(Settings(c), massStorageOnly) == Some(Target(epOut, outInterface))
    {
      FlattenStep(ifs, i);
      FlattenPrefix(ifs, i + 1);
      epOut, outInterface := SearchInterface(ifs[i].altSettings, Flatten(ifs[..i]), Settings(c), massStorageOnly);
      i := i + 1;
    }
    if epOut < 0 {
      assert ifs[..i] == ifs;
      assert FirstCandidate(Settings(c), massStorageOnly) == |Settings(c)|;
    }
  }

  /**
   * The loops over the alternate settings `alts` of one interface, which follow the settings
   * `seen` in the descriptor order `all`.
   */
  method SearchInterface(alts: seq<AltSetting>, ghost seen: seq<AltSetting>, ghost all: seq<AltSetting>,
                         massStorageOnly: bool)
    returns (epOut: int, outInterface: int)
    requires seen + alts <= all && NoCandidate(seen, massStorageOnly)
    ensures epOut < 0 ==> epOut == -1 && outInterface == 0 && NoCandidate(seen + alts, massStorageOnly)
    ensures epOut >= 0 ==> PassResult(all, massStorageOnly) == Some(Target(epOut, outInterface))
  {
    epOut, outInterface := -1, 0;
    var j := 0;
    while j < |alts| && epOut < 0
      invariant 0 <= j <= |alts|
      invariant epOut < 0 ==> outInterface == 0 && epOut == -1 && NoCandidate(seen + alts[..j], massStorageOnly)
      invariant epOut >= 0 ==> PassResult(all, massStorageOnly) == Some(Target(epOut, outInterface))
    {
      var setting := alts[j];
      assert seen + alts[..j + 1] == (seen + alts[..j]) + [setting] by {
        assert alts[..j + 1] == alts[..j] + [setting];
      }
      assert seen + alts[..j] + [setting] <= all by {
        assert seen + alts[..j + 1] <= seen + alts;
      }
      if !massStorageOnly || setting.interfaceClass == CLASS_MASS_STORAGE {
        var address := FirstBulkOutAddress(setting.endpoints);
        if address >= 0 {
          epOut := address;
          outInterface := setting.interfaceNumber;
          PassResultAt(all, seen + alts[..j], setting, massStorageOnly);
        }
      }
      if epOut < 0 {
        NoCandidateStep(seen + alts[..j], setting, massStorageOnly);
      }
      j := j + 1;
    }
    if epOut < 0 {
      assert alts[..j] == alts;
    }
  }

  /** The endpoint loop: the address of the first bulk OUT endpoint, -1 when there is none. */
  method FirstBulkOutAddress(eps: seq<Endpoint>) returns (address: int)
    ensures address == if FirstBulkOut(eps) < |eps| then eps[FirstBulkOut(eps)].address as int else -1
  {
    address := -1;
    var k := 0;
    while k < |eps|
      invariant 0 <= k <= |eps|
      invariant forall x :: 0 <= x < k ==> !IsBulkOut(eps[x])
    {
      var ep := eps[k];
      if IsBulk(ep) {
        if !IsIn(ep) {
          assert FirstBulkOut(eps) == k;
          return ep.address as int;
        }
      }
      k := k + 1;
    }
  }

  /**
   * `find_bulk_out_endpoint`: -1 when the descriptor cannot be read (leaving `*out_interface` as the
   * caller set it); otherwise the mass-storage pass and, if it finds nothing, the any-class pass.
   */
  method FindBulkOutEndpoint(fetch: ConfigFetch, interfaceIn: int) returns (epOut: int, outInterface: int)
    ensures fetch.FetchFailed? ==> epOut == -1 && outInterface == interfaceIn
    ensures fetch.Fetched? ==> Target(epOut, outInterface) == BulkOutTarget(fetch.config)
  {
    if fetch.FetchFailed? {
      return -1, interfaceIn;
    }
    epOut, outInterface := SearchPass(fetch.config, true);
    if epOut < 0 {
      epOut, outInterface := SearchPass(fetch.config, false);
    }
  }

  /**
   * The result is -1 with interface 0 exactly when no alternate setting has a bulk OUT endpoint;
   * otherwise it is the address of a bulk OUT endpoint (direction bit clear) of an alternate setting
   * carrying the returned interface number.
   */
  lemma {:induction false} BulkOutTargetSound(c: Config)
    ensures var t := BulkOutTarget(c);
            (t == NO_TARGET <==> forall s :: s in Settings(c) ==> !HasBulkOut(s)) &&
            (t != NO_TARGET ==>
               0 <= t.endpoint < ENDPOINT_DIR_IN &&
               exists s, e :: s in Settings(c) && e in s.endpoints && IsBulkOut(e) &&
                              e.address == t.endpoint && s.interfaceNumber == t.interfaceNumber)
  {
    var ss := Settings(c);
    var k1 := FirstCandidate(ss, true);
    var k2 := FirstCandidate(ss, false);
    if k1 < |ss| {
      var s := ss[k1];
      var e := s.endpoints[FirstBulkOut(s.endpoints)];
      assert s in ss && e in s.endpoints;
    } else if k2 < |ss| {
      var s := ss[k2];
      var e := s.endpoints[FirstBulkOut(s.endpoints)];
      assert s in ss && e in s.endpoints;
    } else {
      forall s | s in ss ensures !HasBulkOut(s) {
        var j :| 0 <= j < |ss| && ss[j] == s;
        assert !Candidate(ss[j], false);
      }
    }
  }

  /** The endpoint and interface the search reports for a setting it settles on. */
  function TargetOf(s: AltSetting): Target
    requires HasBulkOut(s)
  {
    Target(s.endpoints[FirstBulkOut(s.endpoints)].address, s.interfaceNumber)
  }

  /**
   * Mass-storage preference: when setting `k` is the first mass-storage setting, in descriptor
   * order, with a bulk OUT endpoint, the result is that setting's first bulk OUT endpoint, whatever
   * settings of other classes come before it.
   */
  lemma MassStoragePreferred(c: Config, k: nat)
    requires k < |Settings(c)|
    requires Settings(c)[k].interfaceClass == CLASS_MASS_STORAGE && HasBulkOut(Settings(c)[k])
    requires forall j :: 0 <= j < k ==>
               !(Settings(c)[j].interfaceClass == CLASS_MASS_STORAGE && HasBulkOut(Settings(c)[j]))
    ensures BulkOutTarget(c) == TargetOf(Settings(c)[k])
  {
    assert FirstCandidate(Settings(c), true) == k;
  }

  /**
   * Fallback: when no mass-storage setting has a bulk OUT endpoint, the result is the first bulk
   * OUT endpoint of the first setting of any class that has one.
   */
  lemma AnyClassFallback(c: Config, k: nat)
    requires forall j :: 0 <= j < |Settings(c)| ==>
               !(Settings(c)[j].interfaceClass == CLASS_MASS_STORAGE && HasBulkOut(Settings(c)[j]))
    requires k < |Settings(c)| && HasBulkOut(Settings(c)[k])
    requires forall j :: 0 <= j < k ==> !HasBulkOut(Settings(c)[j])
    ensures BulkOutTarget(c) == TargetOf(Settings(c)[k])
  {
    assert FirstCandidate(Settings(c), true) == |Settings(c)|;
    assert FirstCandidate(Settings(c), false) == k;
  }
}
