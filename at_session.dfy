/**
 * The AT tool's device state: the handle it talks through (`Port`, whose transfer outcomes are
 * fixed when it is created and which records every transfer) and the three globals `ep_in`,
 * `ep_out` and `claimed_interface` (`Session`), which `find_endpoints` writes and `send_command`
 * reads.
 */
module AtSession {
  import opened Basics
  import opened UsbDescriptors
  import opened AtEndpoints
  import opened AtExchange

  class Port {
    /** Whether the bulk OUT transfer of the command succeeds. */
    const sendSucceeds: bool
    /** The results of the bulk IN polls still to come, in order. */
    var replies: seq<ReadResult>
    /** Every transfer attempted so far, in order. */
    var log: seq<Transfer>

    constructor(sendSucceeds: bool, replies: seq<ReadResult>)
      ensures this.sendSucceeds == sendSucceeds && this.replies == replies && log == []
    {
      this.sendSucceeds := sendSucceeds;
      this.replies := replies;
      log := [];
    }

    method BulkOut(endpoint: int, data: string, timeoutMs: nat) returns (ok: bool)
      modifies this
      ensures ok == sendSucceeds && replies == old(replies)
      ensures log == old(log) + [Transfer.BulkOut(endpoint, data, timeoutMs)]
    {
      ok := sendSucceeds;
      log := log + [Transfer.BulkOut(endpoint, data, timeoutMs)];
    }

    /** One bulk IN poll asking for at most `maxLength` bytes; it consumes the next scripted result. */
    method BulkIn(endpoint: int, maxLength: nat, timeoutMs: nat) returns (r: ReadResult)
      modifies this
      ensures r == if |old(replies)| > 0 then Observe(old(replies)[0], maxLength) else Timeout
      ensures replies == DropReplies(old(replies), 1)
      ensures log == old(log) + [Transfer.BulkIn(endpoint, maxLength, timeoutMs)]
    {
      r := if |replies| > 0 then Observe(replies[0], maxLength) else Timeout;
      replies := if |replies| > 0 then replies[1..] else [];
      log := log + [Transfer.BulkIn(endpoint, maxLength, timeoutMs)];
    }
  }

  /** The last bulk IN and the last bulk OUT endpoint of a setting, -1 for a direction it lacks. */
  method ScanSetting(s: AltSetting) returns (foundIn: int, foundOut: int)
    ensures foundIn == LastBulk(s.endpoints, true) && foundOut == LastBulk(s.endpoints, false)
  {
    var eps := s.endpoints;
    foundIn, foundOut := -1, -1;
    for k := 0 to |eps|
      invariant foundIn == LastBulk(eps[..k], true) && foundOut == LastBulk(eps[..k], false)
    {
      assert eps[..k + 1][..k] == eps[..k];
      var ep := eps[k];
      if IsBulk(ep) {
        if IsIn(ep) {
          foundIn := ep.address;
        } else {
          foundOut := ep.address;
        }
      }
    }
    assert eps[..|eps|] == eps;
  }

  /**
   * The copy step of `send_command`: `data` goes after the `total` characters kept so far, cut so
   * that at most `cap` are kept, and a NUL follows; nothing after that NUL changes.
   */
  method AppendChunk(response: array<char>, total: nat, data: string, cap: nat) returns (newTotal: nat)
    requires total < cap < response.Length
    modifies response
    ensures newTotal == Min(total + |data|, cap)
    ensures response[..newTotal] == (old(response[..total]) + data)[..newTotal]
    ensures response[newTotal] == '\0'
    ensures forall x :: newTotal < x < response.Length ==> response[x] == old(response[x])
  {
    var toCopy := |data|;
    if total + toCopy >= cap {
      toCopy := cap - total;
    }
    forall x | 0 <= x < toCopy {
      response[total + x] := data[x];
    }
    newTotal := total + toCopy;
    response[newTotal] := '\0';
  }

  /** No setting of `ss` is a preferred-class setting with a pair. */
  predicate NoPreferredPair(ss: seq<AltSetting>) {
    forall x :: 0 <= x < |ss| ==> !(PreferredClass(ss[x]) && HasPair(ss[x]))
  }

  lemma NoPreferredPairStep(ss: seq<AltSetting>, s: AltSetting)
    requires NoPreferredPair(ss) && !(PreferredClass(s) && HasPair(s))
    ensures NoPreferredPair(ss + [s])
  {
    assert forall x :: 0 <= x < |ss| ==> (ss + [s])[x] == ss[x];
  }

  lemma NoPreferredPairIsLast(ss: seq<AltSetting>)
    requires NoPreferredPair(ss)
    ensures FirstPreferredPair(ss) == |ss|
  {
  }

  /** The settings up to `alts[j]` are a prefix of `all`, and extend by `alts[j]`. */
  lemma PrefixStep(seen: seq<AltSetting>, alts: seq<AltSetting>, j: nat, all: seq<AltSetting>)
    requires seen + alts <= all && j < |alts|
    ensures seen + alts[..j] + [alts[j]] <= all
    ensures seen + alts[..j + 1] == seen + alts[..j] + [alts[j]]
  {
    assert alts[..j + 1] == alts[..j] + [alts[j]];
    assert seen + alts[..j + 1] <= seen + alts;
  }

  /** The second pass over one more setting. */
  lemma SecondPassStep(ss: seq<AltSetting>, s: AltSetting, prior: Resolved)
    ensures SecondPass(ss + [s], prior) ==
              var cur := SecondPass(ss, prior);
              if HasPair(s) && cur.epIn < 0 then PairOf(s) else cur
  {
    assert (ss + [s])[..|ss|] == ss;
  }

  /** The second pass over `ss` from the values `cur`, visiting the settings front to back. */
  function ScanFrom(ss: seq<AltSetting>, cur: Resolved): Resolved
    decreases |ss|
  {
    if ss == [] then cur
    else ScanFrom(ss[1..], if HasPair(ss[0]) && cur.epIn < 0 then PairOf(ss[0]) else cur)
  }

  /** Continuing the second pass over `alts` after the settings `seen`. */
  lemma {:induction false} SecondPassThen(seen: seq<AltSetting>, alts: seq<AltSetting>, prior: Resolved)
    ensures SecondPass(seen + alts, prior) == ScanFrom(alts, SecondPass(seen, prior))
    decreases |alts|
  {
    if alts == [] {
      assert seen + alts == seen;
    } else {
      SecondPassStep(seen, alts[0], prior);
      assert seen + alts == (seen + [alts[0]]) + alts[1..];
      SecondPassThen(seen + [alts[0]], alts[1..], prior);
    }
  }

  class Session {
    var epIn: int
    var epOut: int
    var claimedInterface: int

    constructor()
      ensures State() == UNRESOLVED
    {
      epIn, epOut, claimedInterface := -1, -1, -1;
    }

    function State(): Resolved
      reads this
    {
      Resolved(epIn, epOut, claimedInterface)
    }

    /** The first pass of `find_endpoints`: it returns as soon as a preferred-class pair is found. */
    method PreferredPass(c: Config) returns (found: bool)
      modifies this
      ensures var k := FirstPreferredPair(Settings(c));
              (found <==> k < |Settings(c)|) &&
              State() == if found then PairOf(Settings(c)[k]) else old(State())
    {
      var ifs := c.interfaces;
      var i := 0;
      while i < |ifs|
        invariant 0 <= i <= |ifs|
        invariant NoPreferredPair(Flatten(ifs[..i]))
        invariant State() == old(State())
      {
        FlattenStep(ifs, i);
        FlattenPrefix(ifs, i + 1);
        found := PreferredInInterface(ifs[i].altSettings, Flatten(ifs[..i]), Settings(c));
        if found {
          return;
        }
        i := i + 1;
      }
      assert ifs[..i] == ifs;
      NoPreferredPairIsLast(Settings(c));
      found := false;
    }

    /**
     * The inner loop of the first pass over the settings `alts` of one interface, which follow
     * the settings `seen` in the descriptor order `all`.
     */
    method PreferredInInterface(alts: seq<AltSetting>, ghost seen: seq<AltSetting>, ghost all: seq<AltSetting>)
      returns (found: bool)
      requires seen + alts <= all && NoPreferredPair(seen)
      modifies this
      ensures found ==> FirstPreferredPair(all) < |all| && State() == PairOf(all[FirstPreferredPair(all)])
      ensures !found ==> NoPreferredPair(seen + alts) && State() == old(State())
    {
      var j := 0;
      while j < |alts|
        invariant 0 <= j <= |alts|
        invariant NoPreferredPair(seen + alts[..j])
        invariant State() == old(State())
      {
        var setting := alts[j];
        PrefixStep(seen, alts, j, all);
        if setting.interfaceClass == CLASS_CDC_DATA || setting.interfaceClass == CLASS_VENDOR_SPECIFIC ||
           setting.interfaceClass == CLASS_COMM {
          var foundIn, foundOut := ScanSetting(setting);
          if foundIn >= 0 && foundOut >= 0 {
            epIn, epOut, claimedInterface := foundIn, foundOut, setting.interfaceNumber as int;
            FirstPreferredPairAt(all, seen + alts[..j], setting);
            return true;
          }
        }
        NoPreferredPairStep(seen + alts[..j], setting);
        j := j + 1;
      }
      assert alts[..|alts|] == alts;
      found := false;
    }

    /** The second pass: any class, assigning only while no IN endpoint is recorded. */
    method AnyClassPass(c: Config)
      modifies this
      ensures State() == SecondPass(Settings(c), old(State()))
    {
      var ifs := c.interfaces;
      var i := 0;
      while i < |ifs|
        invariant 0 <= i <= |ifs|
        invariant State() == SecondPass(Flatten(ifs[..i]), old(State()))
      {
        FlattenStep(ifs, i);
        SecondPassThen(Flatten(ifs[..i]), ifs[i].altSettings, old(State()));
        AnyClassInInterface(ifs[i].altSettings);
        i := i + 1;
      }
      assert ifs[..i] == ifs;
    }

    /** The inner loop of the second pass, over the settings `alts` of one interface. */
    method AnyClassInInterface(alts: seq<AltSetting>)
      modifies this
      ensures State() == ScanFrom(alts, old(State()))
    {
      var j := 0;
      while j < |alts|
        invariant 0 <= j <= |alts|
        invariant ScanFrom(alts[j..], State()) == ScanFrom(alts, old(State()))
      {
        var setting := alts[j];
        assert alts[j..][1..] == alts[j + 1..];
        var foundIn, foundOut := ScanSetting(setting);
        if foundIn >= 0 && foundOut >= 0 && epIn < 0 {
          epIn, epOut, claimedInterface := foundIn, foundOut, setting.interfaceNumber as int;
        }
        j := j + 1;
      }
    }

    /**
     * `find_endpoints`: the libusb error when the descriptor cannot be read (the globals keep their
     * values); otherwise the two passes, with 0 exactly when both endpoints end up recorded.
     */
    method FindEndpoints(fetch: ConfigFetch) returns (r: int)
      modifies this
      ensures fetch.FetchFailed? ==> r == fetch.error && State() == old(State())
      ensures fetch.Fetched? ==> (r, State()) == Resolve(fetch.config, old(State()))
    {
      if fetch.FetchFailed? {
        return fetch.error;
      }
      var found := PreferredPass(fetch.config);
      if found {
        return 0;
      }
      AnyClassPass(fetch.config);
      r := if epIn >= 0 && epOut >= 0 then 0 else -1;
    }

    /**
     * `send_command` with a response buffer of `response.Length` characters. A failed send returns
     * -1 and reads nothing. Otherwise the loop polls as the exchange specification says; the result
     * is the number of characters kept, the buffer holds them followed by a NUL, and the rest of
     * the buffer is untouched.
     */
    method SendCommand(port: Port, cmd: string, response: array<char>) returns (r: int)
      requires response.Length >= 1
      modifies port, response
      ensures !port.sendSucceeds ==>
                r == -1 && port.replies == old(port.replies) && response[..] == old(response[..]) &&
                port.log == old(port.log) + [BulkOut(epOut, Frame(cmd), TIMEOUT_MS)]
      ensures port.sendSucceeds ==>
                var cap := response.Length - 1;
                var n := PollCount(old(port.replies), cap);
                var acc := Final(old(port.replies), cap).acc;
                r == |acc| && response[..r] == acc && response[r] == '\0' &&
                (forall x :: r < x < response.Length ==> response[x] == old(response[x])) &&
                port.replies == DropReplies(old(port.replies), n) &&
                port.log == old(port.log) + [BulkOut(epOut, Frame(cmd), TIMEOUT_MS)] + ReadTrace(epIn, n)
    {
      var ok := port.BulkOut(epOut, Frame(cmd), TIMEOUT_MS);
      if !ok {
        return -1;
      }
      r := ReadResponse(port, epIn, response);
    }
  }

  /** One more poll: what it reports, what is left and what the log gains. */
  lemma PollBookkeeping(replies: seq<ReadResult>, k: nat, ep: int, sent: seq<Transfer>)
    ensures DropReplies(DropReplies(replies, k), 1) == DropReplies(replies, k + 1)
    ensures var rest := DropReplies(replies, k);
            PollAt(replies, k) == if |rest| > 0 then Observe(rest[0], READ_REQUEST) else Timeout
    ensures sent + ReadTrace(ep, k) + [BulkIn(ep, READ_REQUEST, READ_TIMEOUT_MS)] == sent + ReadTrace(ep, k + 1)
  {
  }

  /** A state that still continues extends the run of continuing states by one poll. */
  lemma RunExtends(replies: seq<ReadResult>, k: nat, cap: nat)
    requires forall j :: 0 <= j < k ==> Continues(StateAfter(replies, j, cap), cap)
    requires Continues(StateAfter(replies, k, cap), cap)
    ensures forall j :: 0 <= j < k + 1 ==> Continues(StateAfter(replies, j, cap), cap)
  {
  }

  /**
   * One iteration of the read loop, on the state after `k` polls: a poll, then the chunk it
   * delivered copied in, and whether the loop breaks.
   */
  method PollOnce(port: Port, ep: int, response: array<char>, total: nat, emptyReads: nat,
                  ghost replies: seq<ReadResult>, ghost k: nat, ghost sent: seq<Transfer>)
    returns (newTotal: nat, newEmptyReads: nat, stop: bool)
    requires total < response.Length - 1 && emptyReads < MAX_EMPTY_READS
    requires StateAfter(replies, k, response.Length - 1) == ReadState(response[..total], emptyReads, false)
    requires response[total] == '\0'
    requires port.replies == DropReplies(replies, k) && port.log == sent + ReadTrace(ep, k)
    modifies port, response
    ensures total <= newTotal <= response.Length - 1
    ensures StateAfter(replies, k + 1, response.Length - 1) == ReadState(response[..newTotal], newEmptyReads, stop)
    ensures newTotal > total || newEmptyReads > emptyReads || stop
    ensures response[newTotal] == '\0'
    ensures forall x :: newTotal < x < response.Length ==> response[x] == old(response[x])
    ensures port.replies == DropReplies(replies, k + 1) && port.log == sent + ReadTrace(ep, k + 1)
  {
    var cap := response.Length - 1;
    PollBookkeeping(replies, k, ep, sent);
    var res := port.BulkIn(ep, READ_REQUEST, READ_TIMEOUT_MS);
    newTotal, newEmptyReads, stop := total, emptyReads, false;
    if res.ReadError? {
      stop := true;
    } else if IsEmptyPoll(res) {
      EmptyPollStep(replies, k, cap);
      newEmptyReads := emptyReads + 1;
    } else {
      newTotal := AppendChunk(response, total, res.bytes, cap);
      ChunkStep(replies, k, cap, response[..newTotal]);
      stop := HasTerminator(CStr(response[..newTotal]));
      if !stop {
        newEmptyReads := 0;
      }
    }
  }

  /** The read loop of `send_command`, polling endpoint `ep` into `response`. */
  method ReadResponse(port: Port, ep: int, response: array<char>) returns (total: nat)
    requires response.Length >= 1
    modifies port, response
    ensures var cap := response.Length - 1;
            var n := PollCount(old(port.replies), cap);
            var acc := Final(old(port.replies), cap).acc;
            total == |acc| && response[..total] == acc && response[total] == '\0' &&
            (forall x :: total < x < response.Length ==> response[x] == old(response[x])) &&
            port.replies == DropReplies(old(port.replies), n) &&
            port.log == old(port.log) + ReadTrace(ep, n)
  {
    ghost var replies := port.replies;
    ghost var sent := port.log;
    var cap := response.Length - 1;
    response[0] := '\0';
    total := 0;
    var emptyReads: nat := 0;
    ghost var k := 0;
    while total < cap && emptyReads < MAX_EMPTY_READS
      invariant 0 <= total <= cap
      invariant StateAfter(replies, k, cap) == ReadState(response[..total], emptyReads, false)
      invariant forall j :: 0 <= j < k ==> Continues(StateAfter(replies, j, cap), cap)
      invariant response[total] == '\0'
      invariant forall x :: total < x < response.Length ==> response[x] == old(response[x])
      invariant port.replies == DropReplies(replies, k)
      invariant port.log == sent + ReadTrace(ep, k)
      decreases cap - total, MAX_EMPTY_READS - emptyReads
    {
      RunExtends(replies, k, cap);
      var stop;
      total, emptyReads, stop := PollOnce(port, ep, response, total, emptyReads, replies, k, sent);
      k := k + 1;
      if stop {
        PollCountIs(replies, cap, k);
        return;
      }
    }
    PollCountIs(replies, cap, k);
  }
}
