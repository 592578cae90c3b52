/**
 * The command/response exchange of the AT tool's `send_command`, as a specification: the framing
 * of the command, and the read loop as a state machine driven by the results of successive bulk IN
 * polls. The loop appends each non-empty chunk to a buffer capped at `cap` characters (the response
 * size minus one, for the NUL), stops after an append that leaves one of the final result markers
 * in the buffer, on a transfer error, when the buffer is full, or after five consecutive empty
 * polls; any non-empty chunk resets that count.
 */
module AtExchange {
  import opened Basics

  const TIMEOUT_MS := 2000
  const READ_TIMEOUT_MS := 500
  const MAX_RESPONSE_SIZE := 4096
  /** `buf[256]`: the framed command holds at most 255 characters and a NUL. */
  const COMMAND_BUFFER_SIZE := 256
  /** `sizeof(read_buf) - 1`: the most a single poll asks for. */
  const READ_REQUEST := 511
  const MAX_EMPTY_READS := 5

  /** What one bulk IN poll reports. */
  datatype ReadResult = Timeout | ReadError | Data(bytes: string)

  /** A transfer the exchange attempted on the device. */
  datatype Transfer =
    | BulkOut(endpoint: int, data: string, timeoutMs: nat)
    | BulkIn(endpoint: int, maxLength: nat, timeoutMs: nat)

  predicate NoNul(s: string) {
    forall i :: 0 <= i < |s| ==> s[i] != '\0'
  }

  /** `strlen`: the length of the prefix before the first NUL. */
  function CStrLength(s: string): (n: nat)
    ensures n <= |s| && NoNul(s[..n])
    ensures n < |s| ==> s[n] == '\0'
  {
    if s == [] || s[0] == '\0' then 0
    else
      var n := CStrLength(s[1..]);
      assert s[..n + 1] == [s[0]] + s[1..][..n];
      n + 1
  }

  /** The C string a character buffer holds: everything before its first NUL. */
  function CStr(s: string): string {
    s[..CStrLength(s)]
  }

  /** What `snprintf(buf, sizeof(buf), "%s\r", cmd)` leaves in `buf`, up to its NUL. */
  function Frame(cmd: string): (f: string)
    ensures |f| < COMMAND_BUFFER_SIZE && f <= cmd + "\r"
  {
    (cmd + "\r")[..Min(|cmd| + 1, COMMAND_BUFFER_SIZE - 1)]
  }

  /**
   * The framed command is the command followed by a carriage return exactly when the command has
   * at most 254 characters; a longer one is cut to its first 255 characters and loses the CR.
   */
  lemma FrameTruncation(cmd: string)
    ensures |Frame(cmd)| == Min(|cmd| + 1, 255)
    ensures Frame(cmd) == cmd + "\r" <==> |cmd| <= 254
    ensures |cmd| > 254 ==> Frame(cmd) == cmd[..255]
  {
    if |cmd| > 254 {
      assert (cmd + "\r")[..255] == cmd[..255];
    }
  }

  /** A Data chunk longer than the poll asked for is an overflow error. */
  function Observe(r: ReadResult, maxLength: nat): ReadResult {
    if r.Data? && |r.bytes| > maxLength then ReadError else r
  }

  /** What poll `k` reports; once the scripted results run out, every poll times out. */
  function PollAt(replies: seq<ReadResult>, k: nat): ReadResult {
    if k < |replies| then Observe(replies[k], READ_REQUEST) else Timeout
  }

  /** The results left after `k` polls. */
  function DropReplies(replies: seq<ReadResult>, k: nat): seq<ReadResult> {
    if k <= |replies| then replies[k..] else []
  }

  /** The bulk IN requests of `n` polls on endpoint `ep`. */
  function ReadTrace(ep: int, n: nat): (t: seq<Transfer>)
    ensures |t| == n && forall k :: 0 <= k < n ==> t[k] == BulkIn(ep, READ_REQUEST, READ_TIMEOUT_MS)
  {
    if n == 0 then [] else ReadTrace(ep, n - 1) + [BulkIn(ep, READ_REQUEST, READ_TIMEOUT_MS)]
  }

  predicate IsEmptyPoll(r: ReadResult) {
    r.Timeout? || (r.Data? && |r.bytes| == 0)
  }

  // ----- Final result markers -----

  const OK_MARKER := "\r\nOK\r\n"
  const ERROR_MARKER := "\r\nERROR\r\n"
  const CME_MARKER := "\r\n+CME ERROR:"
  const CMS_MARKER := "\r\n+CMS ERROR:"

  /** `m` occurs in `s` starting at index `i`. */
  predicate OccursAt(s: string, m: string, i: nat) {
    i + |m| <= |s| && forall x :: 0 <= x < |m| ==> s[i + x] == m[x]
  }

  /** An occurrence after index 0 is an occurrence in the tail. */
  lemma OccursInTail(s: string, m: string)
    requires |s| > 0
    ensures (exists i :: 1 <= i <= |s| && OccursAt(s, m, i)) <==> (exists j :: 0 <= j <= |s| - 1 && OccursAt(s[1..], m, j))
  {
    if exists i :: 1 <= i <= |s| && OccursAt(s, m, i) {
      var i :| 1 <= i <= |s| && OccursAt(s, m, i);
      assert OccursAt(s[1..], m, i - 1);
    }
    if exists j :: 0 <= j <= |s| - 1 && OccursAt(s[1..], m, j) {
      var j :| 0 <= j <= |s| - 1 && OccursAt(s[1..], m, j);
      assert OccursAt(s, m, j + 1);
    }
  }

  /** `strstr(s, m) != NULL` on a NUL-free `s`. */
  function Contains(s: string, m: string): (b: bool)
    ensures b <==> exists i :: 0 <= i <= |s| && OccursAt(s, m, i)
  {
    if |s| < |m| then false
    else if s[..|m|] == m then
      assert OccursAt(s, m, 0);
      true
    else
      var b := Contains(s[1..], m);
      assert !OccursAt(s, m, 0) by {
        var x :| 0 <= x < |m| && s[..|m|][x] != m[x];
      }
      OccursInTail(s, m);
      b
  }

  /** The buffer holds one of the four final result markers. */
  predicate HasTerminator(s: string) {
    Contains(s, OK_MARKER) || Contains(s, ERROR_MARKER) || Contains(s, CME_MARKER) || Contains(s, CMS_MARKER)
  }

  // ----- The read loop -----

  /** `response[..total_read]`, `empty_reads`, and whether the loop broke out. */
  datatype ReadState = ReadState(acc: string, emptyReads: nat, stopped: bool)

  const INITIAL := ReadState([], 0, false)

  /** The loop condition, with its breaks. */
  predicate Continues(s: ReadState, cap: nat) {
    !s.stopped && |s.acc| < cap && s.emptyReads < MAX_EMPTY_READS
  }

  /** One iteration of the loop on the result `r` of its poll. */
  function Step(s: ReadState, r: ReadResult, cap: nat): ReadState {
    match r
    case Timeout => s.(emptyReads := s.emptyReads + 1)
    case ReadError => s.(stopped := true)
    case Data(b) =>
      if |b| == 0 then s.(emptyReads := s.emptyReads + 1)
      else
        var acc := (s.acc + b)[..Min(|s.acc| + |b|, cap)];
        if HasTerminator(CStr(acc)) then ReadState(acc, s.emptyReads, true) else ReadState(acc, 0, false)
  }

  /** The state after `k` polls; a state that no longer continues is final. */
  function StateAfter(replies: seq<ReadResult>, k: nat, cap: nat): (s: ReadState)
    ensures |s.acc| <= cap
  {
    if k == 0 then INITIAL
    else
      var prev := StateAfter(replies, k - 1, cap);
      if Continues(prev, cap) then Step(prev, PollAt(replies, k - 1), cap) else prev
  }

  /** The number of polls the loop performs. */
  function PollCount(replies: seq<ReadResult>, cap: nat): (n: nat)
    ensures !Continues(StateAfter(replies, n, cap), cap)
    ensures forall j :: 0 <= j < n ==> Continues(StateAfter(replies, j, cap), cap)
  {
    PollCountFrom(replies, 0, cap)
  }

  function PollCountFrom(replies: seq<ReadResult>, k: nat, cap: nat): (n: nat)
    requires forall j :: 0 <= j < k ==> Continues(StateAfter(replies, j, cap), cap)
    ensures k <= n
    ensures !Continues(StateAfter(replies, n, cap), cap)
    ensures forall j :: 0 <= j < n ==> Continues(StateAfter(replies, j, cap), cap)
    decreases cap - |StateAfter(replies, k, cap).acc|,
              MAX_EMPTY_READS - StateAfter(replies, k, cap).emptyReads,
              if StateAfter(replies, k, cap).stopped then 0 else 1
  {
    if !Continues(StateAfter(replies, k, cap), cap) then k
    else
      StepProgress(replies, k, cap);
      PollCountFrom(replies, k + 1, cap)
  }

  /**
   * A poll of a running loop fills the buffer further, or else counts one more empty read, or else
   * stops the loop.
   */
  lemma StepProgress(replies: seq<ReadResult>, k: nat, cap: nat)
    requires Continues(StateAfter(replies, k, cap), cap)
    ensures var a := StateAfter(replies, k, cap);
            var b := StateAfter(replies, k + 1, cap);
            |a.acc| < |b.acc| ||
            (|a.acc| == |b.acc| && (a.emptyReads < b.emptyReads || (a.emptyReads == b.emptyReads && b.stopped)))
  {
  }

  /** An empty poll while the loop runs counts one more empty read. */
  lemma EmptyPollStep(replies: seq<ReadResult>, k: nat, cap: nat)
    requires Continues(StateAfter(replies, k, cap), cap) && IsEmptyPoll(PollAt(replies, k))
    ensures StateAfter(replies, k + 1, cap) ==
              StateAfter(replies, k, cap).(emptyReads := StateAfter(replies, k, cap).emptyReads + 1)
  {
  }

  /** A chunk polled while the loop runs is appended, cut at `cap`; without a marker the count resets. */
  lemma ChunkStep(replies: seq<ReadResult>, k: nat, cap: nat, acc: string)
    requires Continues(StateAfter(replies, k, cap), cap)
    requires PollAt(replies, k).Data? && |PollAt(replies, k).bytes| > 0
    requires var prev := StateAfter(replies, k, cap).acc; var b := PollAt(replies, k).bytes;
             acc == (prev + b)[..Min(|prev| + |b|, cap)]
    ensures StateAfter(replies, k + 1, cap) ==
              if HasTerminator(CStr(acc)) then StateAfter(replies, k, cap).(acc := acc, stopped := true)
              else ReadState(acc, 0, false)
  {
    var prev := StateAfter(replies, k, cap);
    assert StateAfter(replies, k + 1, cap) == Step(prev, PollAt(replies, k), cap);
  }

  /** The state the loop ends in. */
  function Final(replies: seq<ReadResult>, cap: nat): ReadState {
    StateAfter(replies, PollCount(replies, cap), cap)
  }

  // ----- What the loop computes -----

  /** Every chunk the first `k` polls delivered, concatenated. */
  function Received(replies: seq<ReadResult>, k: nat): string {
    if k == 0 then []
    else
      var r := PollAt(replies, k - 1);
      Received(replies, k - 1) + (if r.Data? then r.bytes else [])
  }

  /** How many polls at the end of the first `k` were empty in a row. */
  function TrailingEmpty(replies: seq<ReadResult>, k: nat): (t: nat)
    ensures t <= k
  {
    if k == 0 || !IsEmptyPoll(PollAt(replies, k - 1)) then 0 else TrailingEmpty(replies, k - 1) + 1
  }

  /** While the loop runs, the buffer holds the received chunks, cut at `cap`. */
  lemma {:induction false} AccumulatedIsReceived(replies: seq<ReadResult>, k: nat, cap: nat)
    requires forall j :: 0 <= j < k ==> Continues(StateAfter(replies, j, cap), cap)
    ensures StateAfter(replies, k, cap).acc == Received(replies, k)[..Min(|Received(replies, k)|, cap)]
  {
    if k > 0 {
      AccumulatedIsReceived(replies, k - 1, cap);
      var prev := StateAfter(replies, k - 1, cap);
      assert Continues(prev, cap);
      var received := Received(replies, k - 1);
      assert prev.acc == received;
      var r := PollAt(replies, k - 1);
      var more := if r.Data? then r.bytes else [];
      assert Received(replies, k) == received + more;
      if r.Data? && |r.bytes| > 0 {
        assert StateAfter(replies, k, cap).acc == (received + more)[..Min(|received| + |more|, cap)];
      } else {
        assert received + more == received;
        assert StateAfter(replies, k, cap).acc == received;
      }
    }
  }

  /** The count of empty polls is the run of empty polls since the last chunk. */
  lemma {:induction false} EmptyReadsAreTrailing(replies: seq<ReadResult>, k: nat, cap: nat)
    requires forall j :: 0 <= j < k ==> Continues(StateAfter(replies, j, cap), cap)
    ensures !StateAfter(replies, k, cap).stopped ==>
              StateAfter(replies, k, cap).emptyReads == TrailingEmpty(replies, k)
  {
    if k > 0 {
      EmptyReadsAreTrailing(replies, k - 1, cap);
      assert Continues(StateAfter(replies, k - 1, cap), cap);
    }
  }

  /** While the loop runs, the buffer's C string holds no final result marker. */
  lemma {:induction false} NoMarkerWhileRunning(replies: seq<ReadResult>, k: nat, cap: nat)
    requires Continues(StateAfter(replies, k, cap), cap)
    ensures !HasTerminator(CStr(StateAfter(replies, k, cap).acc))
  {
    if k > 0 {
      var prev := StateAfter(replies, k - 1, cap);
      var r := PollAt(replies, k - 1);
      assert Continues(prev, cap);
      NoMarkerWhileRunning(replies, k - 1, cap);
      assert StateAfter(replies, k, cap) == Step(prev, r, cap);
      if !(r.Data? && |r.bytes| > 0) {
        assert StateAfter(replies, k, cap).acc == prev.acc;
      }
    }
  }

  /**
   * A final result marker in the C string of the first `k` chunks (cut at `cap`) means the loop
   * has stopped by poll `k`: it never reads past the poll that completes a final response.
   */
  lemma StopsAtMarker(replies: seq<ReadResult>, k: nat, cap: nat)
    requires var r := Received(replies, k); HasTerminator(CStr(r[..Min(|r|, cap)]))
    ensures PollCount(replies, cap) <= k
  {
    if PollCount(replies, cap) > k {
      AccumulatedIsReceived(replies, k, cap);
      NoMarkerWhileRunning(replies, k, cap);
    }
  }

  /** A run of at least `t` empty polls ends at poll `k`. */
  lemma {:induction false} TrailingEmptyPolls(replies: seq<ReadResult>, k: nat, t: nat)
    requires t <= TrailingEmpty(replies, k)
    ensures forall j :: k - t <= j < k ==> IsEmptyPoll(PollAt(replies, j))
  {
    if t > 0 {
      TrailingEmptyPolls(replies, k - 1, t - 1);
    }
  }

  /**
   * Why the loop ends: its last poll was a transfer error; or its last poll was a chunk after which
   * the buffer holds a final result marker; or the buffer is full; or its last five polls were
   * empty.
   */
  lemma StopReasons(replies: seq<ReadResult>, cap: nat)
    ensures var n := PollCount(replies, cap);
            var f := Final(replies, cap);
            (n > 0 && PollAt(replies, n - 1).ReadError?) ||
            (n > 0 && PollAt(replies, n - 1).Data? && |PollAt(replies, n - 1).bytes| > 0 && HasTerminator(CStr(f.acc))) ||
            |f.acc| == cap ||
            (n >= MAX_EMPTY_READS && forall j :: n - MAX_EMPTY_READS <= j < n ==> IsEmptyPoll(PollAt(replies, j)))
  {
    var n := PollCount(replies, cap);
    var f := Final(replies, cap);
    if n > 0 {
      var prev := StateAfter(replies, n - 1, cap);
      assert Continues(prev, cap);
      assert f == Step(prev, PollAt(replies, n - 1), cap);
      EmptyReadsAreTrailing(replies, n, cap);
      if !f.stopped && |f.acc| < cap {
        TrailingEmptyPolls(replies, n, MAX_EMPTY_READS);
      }
    }
  }

  // ----- Two exchanges -----

  /** A NUL-free buffer is its own C string. */
  lemma {:induction false} CStrOfNoNul(s: string)
    requires NoNul(s)
    ensures CStr(s) == s
  {
    if s != [] {
      assert NoNul(s[1..]) by {
        assert forall i :: 0 <= i < |s| - 1 ==> s[1..][i] == s[i + 1];
      }
      CStrOfNoNul(s[1..]);
      assert s == [s[0]] + s[1..];
    }
  }

  const CPIN_ECHO := "AT+CPIN?\r\r\n"
  const CPIN_REPLY := "+CPIN: READY\r\n\r\nOK\r\n"

  /** A marker whose first character does not occur early enough in `s` does not occur in it. */
  lemma NoOccurrence(s: string, m: string, bound: nat)
    requires 0 < |m| && |s| < bound + |m|
    requires forall i :: 0 <= i < bound && i < |s| ==> s[i] != m[0]
    ensures !Contains(s, m)
  {
    forall i | 0 <= i <= |s| ensures !OccursAt(s, m, i) {
      if i + |m| <= |s| {
        assert s[i + 0] != m[0];
      }
    }
  }

  /** The echo chunk alone holds no final result marker. */
  lemma CpinEchoHasNoMarker()
    ensures !HasTerminator(CPIN_ECHO)
  {
    var prefix := CPIN_ECHO[..8];
    assert prefix == "AT+CPIN?";
    assert forall i :: 0 <= i < 8 ==> CPIN_ECHO[i] == prefix[i];
    NoOccurrence(CPIN_ECHO, OK_MARKER, 6);
    NoOccurrence(CPIN_ECHO, ERROR_MARKER, 3);
    NoOccurrence(CPIN_ECHO, CME_MARKER, 0);
    NoOccurrence(CPIN_ECHO, CMS_MARKER, 0);
  }

  /** A first chunk without a marker that fits the buffer is kept, and the loop goes on. */
  lemma FirstChunk(replies: seq<ReadResult>, cap: nat, a: string)
    requires PollAt(replies, 0) == Data(a) && 0 < |a| < cap
    requires NoNul(a) && !HasTerminator(a)
    ensures StateAfter(replies, 1, cap) == ReadState(a, 0, false)
  {
    CStrOfNoNul(a);
    assert ([] + a)[..Min(|a|, cap)] == a;
  }

  /** A second chunk that completes a marker and fits the buffer stops the loop. */
  lemma SecondChunkCompletes(replies: seq<ReadResult>, cap: nat, a: string, b: string)
    requires StateAfter(replies, 1, cap) == ReadState(a, 0, false) && |a| < cap
    requires PollAt(replies, 1) == Data(b) && 0 < |b| && |a| + |b| <= cap
    requires NoNul(a + b) && HasTerminator(a + b)
    ensures StateAfter(replies, 2, cap) == ReadState(a + b, 0, true)
  {
    CStrOfNoNul(a + b);
    assert (a + b)[..Min(|a| + |b|, cap)] == a + b;
  }

  /** A loop that runs for `k` polls and then stops performs exactly `k`. */
  lemma PollCountIs(replies: seq<ReadResult>, cap: nat, k: nat)
    requires forall j :: 0 <= j < k ==> Continues(StateAfter(replies, j, cap), cap)
    requires !Continues(StateAfter(replies, k, cap), cap)
    ensures PollCount(replies, cap) == k && Final(replies, cap) == StateAfter(replies, k, cap)
  {
  }

  /** A loop that runs for two polls and then stops performs exactly two. */
  lemma TwoPolls(replies: seq<ReadResult>, cap: nat)
    requires Continues(StateAfter(replies, 0, cap), cap) && Continues(StateAfter(replies, 1, cap), cap)
    requires !Continues(StateAfter(replies, 2, cap), cap)
    ensures PollCount(replies, cap) == 2 && Final(replies, cap) == StateAfter(replies, 2, cap)
  {
    PollCountIs(replies, cap, 2);
  }

  /** The reply completes the final "OK" of the exchange. */
  lemma CpinResponseHasMarker()
    ensures NoNul(CPIN_ECHO) && NoNul(CPIN_ECHO + CPIN_REPLY) && HasTerminator(CPIN_ECHO + CPIN_REPLY)
  {
    var whole := CPIN_ECHO + CPIN_REPLY;
    assert |whole| == 31;
    assert whole[25..31] == CPIN_REPLY[14..20] == OK_MARKER;
    assert OccursAt(whole, OK_MARKER, 25) by {
      assert forall x :: 0 <= x < 6 ==> whole[25 + x] == whole[25..31][x];
    }
  }

  /**
   * The echo "AT+CPIN?\r\r\n" followed by "+CPIN: READY\r\n\r\nOK\r\n": two polls, and the buffer
   * holds both chunks, 31 characters.
   */
  lemma CpinExchange()
    ensures var replies := [Data(CPIN_ECHO), Data(CPIN_REPLY)];
            PollCount(replies, MAX_RESPONSE_SIZE - 1) == 2 &&
            Final(replies, MAX_RESPONSE_SIZE - 1).acc == CPIN_ECHO + CPIN_REPLY &&
            |Final(replies, MAX_RESPONSE_SIZE - 1).acc| == 31
  {
    var replies := [Data(CPIN_ECHO), Data(CPIN_REPLY)];
    var cap := MAX_RESPONSE_SIZE - 1;
    CpinEchoHasNoMarker();
    CpinResponseHasMarker();
    FirstChunk(replies, cap, CPIN_ECHO);
    SecondChunkCompletes(replies, cap, CPIN_ECHO, CPIN_REPLY);
    TwoPolls(replies, cap);
  }

  /** Five empty polls at the start end the loop with nothing received (`send_command` returns 0). */
  lemma FiveEmptyPolls(replies: seq<ReadResult>, cap: nat)
    requires cap >= 1
    requires forall k :: 0 <= k < MAX_EMPTY_READS ==> IsEmptyPoll(PollAt(replies, k))
    ensures PollCount(replies, cap) == MAX_EMPTY_READS && Final(replies, cap).acc == []
  {
    assert StateAfter(replies, 1, cap) == ReadState([], 1, false);
    assert StateAfter(replies, 2, cap) == ReadState([], 2, false);
    assert StateAfter(replies, 3, cap) == ReadState([], 3, false);
    assert StateAfter(replies, 4, cap) == ReadState([], 4, false);
    assert StateAfter(replies, 5, cap) == ReadState([], 5, false);
  }
}
