/**
 * Zero-terminated product-identifier tables, as both tools declare them, and the two ways they are
 * used: a membership test and a first-match scan that opens the first identifier present.
 */
module PidTables {
  import opened Basics

  /** No identifier occurs twice. */
  predicate Distinct(s: seq<u16>) {
    forall i, j :: 0 <= i < j < |s| ==> s[i] != s[j]
  }

  /** The entries of a table: everything before its first 0, the sentinel that ends the C loops. */
  function Entries(t: seq<u16>): (e: seq<u16>)
    ensures e <= t && 0 !in e
    ensures |e| < |t| ==> t[|e|] == 0
    ensures 0 in t ==> |e| < |t|
  {
    if t == [] || t[0] == 0 then [] else [t[0]] + Entries(t[1..])
  }

  /** A table written as its entries followed by the 0 sentinel has exactly those entries. */
  lemma {:induction false} EntriesOfTerminated(e: seq<u16>)
    requires 0 !in e
    ensures Entries(e + [0]) == e
  {
    if e != [] {
      assert (e + [0])[1..] == e[1..] + [0];
      EntriesOfTerminated(e[1..]);
    }
  }

  lemma {:induction false} DistinctAppend(a: seq<u16>, b: seq<u16>)
    requires Distinct(a) && Distinct(b)
    requires forall p :: p in a ==> p !in b
    ensures Distinct(a + b)
  {
    forall i, j | 0 <= i < j < |a + b| ensures (a + b)[i] != (a + b)[j] {
      if i < |a| <= j {
        assert (a + b)[i] in a;
        assert (a + b)[j] in b;
      }
    }
  }

  /**
   * The identifier that a first-match scan of `s` settles on when exactly the identifiers in
   * `present` can be opened: the first entry, in table order, that is present.
   */
  function FirstPresent(s: seq<u16>, present: set<u16>): (r: Option<u16>)
    ensures r.None? <==> forall i :: 0 <= i < |s| ==> s[i] !in present
    ensures r.Some? ==> exists k :: 0 <= k < |s| && s[k] == r.value && r.value in present &&
                                    forall i :: 0 <= i < k ==> s[i] !in present
  {
    if s == [] then None
    else if s[0] in present then Some(s[0])
    else
      var r := FirstPresent(s[1..], present);
      assert forall i :: 1 <= i < |s| ==> s[i] == s[1..][i - 1];
      if r.Some? then
        var k :| 0 <= k < |s[1..]| && s[1..][k] == r.value && r.value in present &&
                 forall i :: 0 <= i < k ==> s[1..][i] !in present;
        assert s[k + 1] == r.value;
        r
      else r
  }

  /** The C membership loop `for (i = 0; t[i] != 0; i++) if (t[i] == pid) return 1; return 0;`. */
  method TableContains(t: seq<u16>, pid: u16) returns (found: bool)
    requires 0 in t
    ensures found <==> pid in Entries(t)
  {
    ghost var e := Entries(t);
    assert forall j :: 0 <= j < |e| ==> e[j] == t[j];
    var i := 0;
    while t[i] != 0
      invariant 0 <= i <= |e| < |t|
      invariant forall j :: 0 <= j < i ==> t[j] != pid
      decreases |t| - i
    {
      if t[i] == pid {
        return true;
      }
      i := i + 1;
    }
    found := false;
  }

  /**
   * The C open loop `for (i = 0; t[i] != 0; i++) { h = open(t[i]); if (h) return h; }`, with the
   * identifiers whose open succeeds given as `present`.
   */
  method FindFirstPresent(t: seq<u16>, present: set<u16>) returns (found: Option<u16>)
    requires 0 in t
    ensures found == FirstPresent(Entries(t), present)
  {
    var i := 0;
    while t[i] != 0
      invariant 0 <= i <= |Entries(t)| < |t|
      invariant t[..i] == Entries(t)[..i]
      invariant FirstPresent(Entries(t), present) == FirstPresent(Entries(t)[i..], present)
      decreases |t| - i
    {
      assert t[i] == Entries(t)[i];
      if t[i] in present {
        return Some(t[i]);
      }
      assert Entries(t)[i..][1..] == Entries(t)[i + 1..];
      i := i + 1;
    }
    assert Entries(t) == t[..i];
    found := None;
  }
}
