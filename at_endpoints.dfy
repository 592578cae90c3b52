/**
 * What the AT tool's `find_endpoints` resolves from a configuration descriptor: a bulk IN and a
 * bulk OUT endpoint of one alternate setting, and that setting's interface number. A first pass
 * accepts only settings of the communications (0x02), CDC data (0x0A) and vendor-specific (0xFF)
 * classes and stops at the first with a pair; a second pass accepts any class, and assigns only
 * while no IN endpoint has been recorded.
 */
module AtEndpoints {
  import opened Basics
  import opened UsbDescriptors

  const CLASS_COMM: byte := 0x02
  const CLASS_CDC_DATA: byte := 0x0A
  const CLASS_VENDOR_SPECIFIC: byte := 0xFF

  /** A bulk endpoint in the wanted direction. */
  predicate Wanted(e: Endpoint, wantIn: bool) {
    IsBulk(e) && IsIn(e) == wantIn
  }

  /** The address of the LAST bulk endpoint of `eps` in the given direction; -1 when there is none. */
  function LastBulk(eps: seq<Endpoint>, wantIn: bool): (a: int)
    ensures a == -1 <==> forall k :: 0 <= k < |eps| ==> !Wanted(eps[k], wantIn)
    ensures a != -1 ==> exists k :: 0 <= k < |eps| && Wanted(eps[k], wantIn) && eps[k].address == a &&
                                    forall j :: k < j < |eps| ==> !Wanted(eps[j], wantIn)
  {
    if eps == [] then -1
    else
      var e := eps[|eps| - 1];
      if IsBulk(e) && IsIn(e) == wantIn then
        assert Wanted(eps[|eps| - 1], wantIn);
        e.address as int
      else
        var init := eps[..|eps| - 1];
        var a := LastBulk(init, wantIn);
        assert forall j :: 0 <= j < |init| ==> eps[j] == init[j];
        if a == -1 then a
        else
          var k :| 0 <= k < |init| && Wanted(init[k], wantIn) && init[k].address == a &&
                   forall j :: k < j < |init| ==> !Wanted(init[j], wantIn);
          assert forall j :: k < j < |eps| ==> !Wanted(eps[j], wantIn);
          a
  }

  predicate PreferredClass(s: AltSetting) {
    s.interfaceClass == CLASS_CDC_DATA || s.interfaceClass == CLASS_VENDOR_SPECIFIC || s.interfaceClass == CLASS_COMM
  }

  /** The setting has at least one bulk IN and one bulk OUT endpoint. */
  predicate HasPair(s: AltSetting) {
    LastBulk(s.endpoints, true) >= 0 && LastBulk(s.endpoints, false) >= 0
  }

  /** The globals `ep_in`, `ep_out` and `claimed_interface`, as a value. */
  datatype Resolved = Resolved(epIn: int, epOut: int, claimedInterface: int)

  /** Their initial values. */
  const UNRESOLVED := Resolved(-1, -1, -1)

  /** What a setting with a pair contributes: its last bulk IN, its last bulk OUT, its number. */
  function PairOf(s: AltSetting): Resolved {
    Resolved(LastBulk(s.endpoints, true), LastBulk(s.endpoints, false), s.interfaceNumber as int)
  }

  /** Index of the first preferred-class setting with a pair; `|ss|` when there is none. */
  function FirstPreferredPair(ss: seq<AltSetting>): (k: nat)
    ensures k <= |ss|
    ensures forall j :: 0 <= j < k ==> !(PreferredClass(ss[j]) && HasPair(ss[j]))
    ensures k < |ss| ==> PreferredClass(ss[k]) && HasPair(ss[k])
  {
    if ss == [] then 0
    else if PreferredClass(ss[0]) && HasPair(ss[0]) then 0
    else
      var k := FirstPreferredPair(ss[1..]);
      assert forall j :: 1 <= j < |ss| ==> ss[j] == ss[1..][j - 1];
      1 + k
  }

  /** The second pass over `ss`, from the values `prior` the globals had before it. */
  function SecondPass(ss: seq<AltSetting>, prior: Resolved): Resolved {
    if ss == [] then prior
    else
      var cur := SecondPass(ss[..|ss| - 1], prior);
      var s := ss[|ss| - 1];
      if HasPair(s) && cur.epIn < 0 then PairOf(s) else cur
  }

  /** The return code of the second pass: 0 when both endpoints are recorded. */
  function PassCode(r: Resolved): int {
    if r.epIn >= 0 && r.epOut >= 0 then 0 else -1
  }

  /** `find_endpoints` on a descriptor it could read, from the values `prior` of the globals. */
  function Resolve(c: Config, prior: Resolved): (int, Resolved) {
    var ss := Settings(c);
    var k := FirstPreferredPair(ss);
    if k < |ss| then (0, PairOf(ss[k]))
    else
      var r := SecondPass(ss, prior);
      (PassCode(r), r)
  }

  /** Index of the first setting with a pair; `|ss|` when there is none. */
  function FirstPair(ss: seq<AltSetting>): (k: nat)
    ensures k <= |ss|
    ensures forall j :: 0 <= j < k ==> !HasPair(ss[j])
    ensures k < |ss| ==> HasPair(ss[k])
  {
    if ss == [] then 0
    else if HasPair(ss[0]) then 0
    else
      var k := FirstPair(ss[1..]);
      assert forall j :: 1 <= j < |ss| ==> ss[j] == ss[1..][j - 1];
      1 + k
  }

  /** A pair's IN address has the direction bit set, its OUT address has it clear. */
  lemma PairDirections(s: AltSetting)
    requires HasPair(s)
    ensures PairOf(s).epIn >= ENDPOINT_DIR_IN as int && 0 <= PairOf(s).epOut < ENDPOINT_DIR_IN as int
  {
  }

  /**
   * From a state with no IN endpoint recorded, the second pass settles on the first setting with
   * a pair (later ones are not taken because an IN endpoint is then recorded), and changes nothing
   * when no setting has one.
   */
  lemma {:induction false} SecondPassFirstWins(ss: seq<AltSetting>, prior: Resolved)
    requires prior.epIn < 0
    ensures SecondPass(ss, prior) == if FirstPair(ss) < |ss| then PairOf(ss[FirstPair(ss)]) else prior
  {
    if ss != [] {
      var init := ss[..|ss| - 1];
      SecondPassFirstWins(init, prior);
      assert forall j :: 0 <= j < |init| ==> init[j] == ss[j];
      if FirstPair(init) < |init| {
        assert FirstPair(ss) == FirstPair(init);
        PairDirections(init[FirstPair(init)]);
      } else {
        assert FirstPair(ss) >= |init|;
      }
    }
  }

  /** With an IN endpoint already recorded, the second pass assigns nothing. */
  lemma {:induction false} SecondPassKeeps(ss: seq<AltSetting>, prior: Resolved)
    requires prior.epIn >= 0
    ensures SecondPass(ss, prior) == prior
  {
    if ss != [] {
      SecondPassKeeps(ss[..|ss| - 1], prior);
    }
  }

  /**
   * From the initial state, `find_endpoints` succeeds exactly when some setting has a bulk IN and a
   * bulk OUT endpoint; on success both come from one such setting, IN has the direction bit set
   * and OUT has it clear, the interface is that setting's number, and each is the LAST endpoint of
   * its direction in that setting; on failure all three globals stay -1.
   */
  lemma ResolveSound(c: Config)
    ensures var (code, r) := Resolve(c, UNRESOLVED);
            (code == 0 <==> exists s :: s in Settings(c) && HasPair(s)) &&
            (code == 0 ==>
               r.epIn >= ENDPOINT_DIR_IN as int && 0 <= r.epOut < ENDPOINT_DIR_IN as int &&
               exists s :: s in Settings(c) && HasPair(s) && r == PairOf(s)) &&
            (code != 0 ==> code == -1 && r == UNRESOLVED)
  {
    var ss := Settings(c);
    var k := FirstPreferredPair(ss);
    SecondPassFirstWins(ss, UNRESOLVED);
    if k < |ss| {
      assert ss[k] in ss;
      PairDirections(ss[k]);
    } else if FirstPair(ss) < |ss| {
      assert ss[FirstPair(ss)] in ss;
      PairDirections(ss[FirstPair(ss)]);
    } else {
      forall s | s in ss ensures !HasPair(s) {
        var j :| 0 <= j < |ss| && ss[j] == s;
      }
    }
  }

  /**
   * Class preference: when setting `k` is the first setting of a preferred class with a pair, it
   * is the one resolved, whatever the globals held before and whatever settings come before it.
   */
  lemma PreferredClassWins(c: Config, prior: Resolved, k: nat)
    requires k < |Settings(c)| && PreferredClass(Settings(c)[k]) && HasPair(Settings(c)[k])
    requires forall j :: 0 <= j < k ==> !(PreferredClass(Settings(c)[j]) && HasPair(Settings(c)[j]))
    ensures Resolve(c, prior) == (0, PairOf(Settings(c)[k]))
  {
    assert FirstPreferredPair(Settings(c)) == k;
  }

  /**
   * Fallback: when no preferred-class setting has a pair, the first setting of any class with a
   * pair is the one resolved from the initial state.
   */
  lemma AnyClassFallback(c: Config, k: nat)
    requires forall j :: 0 <= j < |Settings(c)| ==> !(PreferredClass(Settings(c)[j]) && HasPair(Settings(c)[j]))
    requires k < |Settings(c)| && HasPair(Settings(c)[k])
    requires forall j :: 0 <= j < k ==> !HasPair(Settings(c)[j])
    ensures Resolve(c, UNRESOLVED) == (0, PairOf(Settings(c)[k]))
  {
    assert FirstPreferredPair(Settings(c)) == |Settings(c)|;
    assert FirstPair(Settings(c)) == k;
    SecondPassFirstWins(Settings(c), UNRESOLVED);
    PairDirections(Settings(c)[k]);
  }

  /**
   * Resolving again on the same descriptor, from whatever the first resolution left in the
   * globals, gives the same result; in particular two resolutions from the initial state agree.
   */
  lemma ResolveIdempotent(c: Config, prior: Resolved)
    ensures Resolve(c, Resolve(c, prior).1) == Resolve(c, prior)
  {
    var ss := Settings(c);
    if FirstPreferredPair(ss) == |ss| {
      var r := SecondPass(ss, prior);
      if r.epIn >= 0 {
        SecondPassKeeps(ss, r);
      } else if prior.epIn >= 0 {
        SecondPassKeeps(ss, prior);
      } else {
        SecondPassFirstWins(ss, prior);
        if FirstPair(ss) < |ss| {
          PairDirections(ss[FirstPair(ss)]);
        }
      }
    }
  }

  /** A setting that follows settings without a preferred-class pair, and has one, is the first. */
  lemma FirstPreferredPairAt(ss: seq<AltSetting>, seen: seq<AltSetting>, s: AltSetting)
    requires seen + [s] <= ss
    requires forall j :: 0 <= j < |seen| ==> !(PreferredClass(seen[j]) && HasPair(seen[j]))
    requires PreferredClass(s) && HasPair(s)
    ensures FirstPreferredPair(ss) == |seen| && ss[|seen|] == s
  {
    assert ss[|seen|] == (seen + [s])[|seen|] == s;
    assert forall j :: 0 <= j < |seen| ==> ss[j] == seen[j];
  }
}
