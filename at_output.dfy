/**
 * What the AT tool prints once `send_command` has returned: the response, with the modem's echo
 * of the command skipped unless raw mode is on, and a final newline added when it lacks one.
 */
module AtOutput {
  import opened Basics
  import opened AtExchange

  const CRLF := "\r\n"

  /** `strstr(s, m)`: the index of the first occurrence of `m` in `s`, if there is one. */
  function Find(s: string, m: string): (r: Option<nat>)
    ensures r.None? <==> !Contains(s, m)
    ensures r.Some? ==> OccursAt(s, m, r.value) && forall i :: 0 <= i < r.value ==> !OccursAt(s, m, i)
  {
    if |s| < |m| then None
    else if s[..|m|] == m then
      assert OccursAt(s, m, 0);
      Some(0)
    else
      assert !OccursAt(s, m, 0) by {
        var x :| 0 <= x < |m| && s[..|m|][x] != m[x];
      }
      match Find(s[1..], m)
      case None =>
        OccursInTail(s, m);
        None
      case Some(j) =>
        ShiftOccurs(s, m, j + 1);
        forall i | 1 <= i < j + 1
          ensures !OccursAt(s, m, i)
        {
          ShiftOccurs(s, m, i);
        }
        Some(j + 1)
  }

  /** An occurrence at index `i >= 1` is an occurrence at `i - 1` in the tail. */
  lemma ShiftOccurs(s: string, m: string, i: nat)
    requires 1 <= i <= |s|
    ensures OccursAt(s, m, i) <==> OccursAt(s[1..], m, i - 1)
  {
    assert forall x :: 0 <= x < |s| - 1 ==> s[1..][x] == s[x + 1];
  }

  /** The first occurrence is the occurrence no earlier occurrence precedes. */
  lemma FindIsFirst(s: string, m: string, i: nat)
    requires OccursAt(s, m, i) && forall j :: 0 <= j < i ==> !OccursAt(s, m, j)
    ensures Find(s, m) == Some(i)
  {
    assert Contains(s, m);
    var e := Find(s, m).value;
    assert !(e < i) && !(i < e);
  }

  /**
   * The text shown in normal mode: when the first CRLF of `text` starts no later than
   * `strlen(cmd) + 2`, everything up to and including it is the echo and is skipped.
   */
  function StripEcho(text: string, cmd: string): (r: string)
    ensures |r| <= |text| && r == text[|text| - |r|..]
  {
    match Find(text, CRLF)
    case Some(e) => if e <= CStrLength(cmd) + 2 then text[e + 2..] else text
    case None => text
  }

  /**
   * Stripping keeps a suffix of the text, and it shortens the text exactly when a CRLF starts
   * within the first `strlen(cmd) + 3` positions; what it drops then ends in that CRLF.
   */
  lemma StripEchoSound(text: string, cmd: string)
    ensures var r := StripEcho(text, cmd);
            |r| <= |text| && r == text[|text| - |r|..]
    ensures var r := StripEcho(text, cmd);
            |r| < |text| <==> exists i :: 0 <= i <= CStrLength(cmd) + 2 && OccursAt(text, CRLF, i)
    ensures var r := StripEcho(text, cmd);
            |r| < |text| ==> text[|text| - |r| - 2..|text| - |r|] == CRLF &&
                             !Contains(text[..|text| - |r| - 1], CRLF)
  {
    var r := StripEcho(text, cmd);
    match Find(text, CRLF)
    case None =>
    case Some(e) =>
      if e <= CStrLength(cmd) + 2 {
        assert text[e + 2..] == text[|text| - |r|..];
        assert text[e..e + 2] == CRLF by {
          assert text[e + 0] == CRLF[0] && text[e + 1] == CRLF[1];
        }
        var head := text[..e + 1];
        forall i | 0 <= i <= |head|
          ensures !OccursAt(head, CRLF, i)
        {
          OccursInPrefix(text, CRLF, e + 1, i);
        }
      } else {
        forall i | 0 <= i <= CStrLength(cmd) + 2
          ensures !OccursAt(text, CRLF, i)
        {
          assert i < e;
        }
      }
  }

  /** An echo with no line feed, short enough for the command, followed by CRLF, is skipped whole. */
  lemma EchoIsStripped(echo: string, rest: string, cmd: string)
    requires forall i :: 0 <= i < |echo| ==> echo[i] != '\n'
    requires |echo| <= CStrLength(cmd) + 2
    ensures StripEcho(echo + CRLF + rest, cmd) == rest
  {
    var text := echo + CRLF + rest;
    assert OccursAt(text, CRLF, |echo|);
    forall j | 0 <= j < |echo|
      ensures !OccursAt(text, CRLF, j)
    {
      NoCrlfInEcho(echo, rest, j);
    }
    FindIsFirst(text, CRLF, |echo|);
    assert text[|echo| + 2..] == rest;
  }

  /** A CRLF cannot start inside an echo that has no line feed. */
  lemma NoCrlfInEcho(echo: string, rest: string, j: nat)
    requires forall i :: 0 <= i < |echo| ==> echo[i] != '\n'
    requires j < |echo|
    ensures !OccursAt(echo + CRLF + rest, CRLF, j)
  {
    var text := echo + CRLF + rest;
    if j + 1 < |echo| {
      assert text[j + 1] == echo[j + 1];
    } else {
      assert text[j + 1] == CRLF[0];
    }
    assert text[j + 1] != CRLF[1];
  }

  /** An occurrence in a prefix is an occurrence in the whole string. */
  lemma OccursInPrefix(s: string, m: string, k: nat, i: nat)
    requires k <= |s|
    ensures OccursAt(s[..k], m, i) ==> OccursAt(s, m, i)
  {
    if OccursAt(s[..k], m, i) {
      assert forall x :: 0 <= x < k ==> s[..k][x] == s[x];
    }
  }

  /** What the tool writes to standard output and to standard error. */
  datatype Printed = Printed(stdout: string, stderr: string)

  const NO_RESPONSE := "No response\n"

  /** The text `printf("%s", p)` shows, followed by the newline the code adds when it is missing. */
  function WithNewline(p: string): (r: string)
    ensures |p| <= |r| <= |p| + 1 && r[..|p|] == p
    ensures |p| > 0 ==> r[|r| - 1] == '\n'
  {
    if |p| > 0 && p[|p| - 1] != '\n' then p + "\n" else p
  }

  /**
   * `main` after `r = send_command(command, response, ...)`: nothing on standard output (and
   * "No response" on standard error) when `r <= 0`; the C string in the buffer in raw mode;
   * otherwise that string with the echo skipped and a newline ensured.
   */
  function Output(r: int, response: string, cmd: string, raw: bool): Printed {
    if r <= 0 then Printed("", NO_RESPONSE)
    else if raw then Printed(CStr(response), "")
    else Printed(WithNewline(StripEcho(CStr(response), cmd)), "")
  }

  /** Nothing is shown without a response; the raw text is the buffer's C string unchanged. */
  lemma OutputCases(r: int, response: string, cmd: string, raw: bool)
    ensures var out := Output(r, response, cmd, raw);
            (r <= 0 <==> out.stdout == [] && out.stderr == NO_RESPONSE) &&
            (r > 0 && raw ==> out == Printed(CStr(response), ""))
  {
  }

  /**
   * In normal mode a response that shows anything ends in a line feed, and what is shown is a
   * suffix of the buffer's C string, possibly followed by that line feed.
   */
  lemma OutputEndsLine(r: int, response: string, cmd: string)
    requires r > 0
    ensures var out := Output(r, response, cmd, false).stdout;
            var text := CStr(response);
            (|out| > 0 ==> out[|out| - 1] == '\n') &&
            exists n :: 0 <= n <= |text| && (out == text[n..] || out == text[n..] + "\n")
  {
    var text := CStr(response);
    StripEchoSound(text, cmd);
    var p := StripEcho(text, cmd);
    assert p == text[|text| - |p|..];
  }

  /** A newline is added exactly when the text is non-empty and lacks one at its end. */
  lemma NewlineAddedIff(p: string)
    ensures |WithNewline(p)| == |p| + 1 <==> |p| > 0 && p[|p| - 1] != '\n'
    ensures WithNewline(p)[..|p|] == p
  {
  }

  /** The "AT+CPIN?" exchange prints the modem's reply without the echo. */
  lemma CpinOutput(buffer: string)
    requires |buffer| > 31 && buffer[..31] == CPIN_ECHO + CPIN_REPLY && buffer[31] == '\0'
    ensures Output(31, buffer, "AT+CPIN?", false) == Printed(CPIN_REPLY, "")
  {
    CpinResponseHasMarker();
    CStrOfNoNul(CPIN_ECHO + CPIN_REPLY);
    CStrPrefix(buffer, 31);
    var echo := "AT+CPIN?\r";
    assert CPIN_ECHO + CPIN_REPLY == echo + CRLF + CPIN_REPLY;
    assert CStrLength("AT+CPIN?") == 8 by {
      CStrOfNoNul("AT+CPIN?");
    }
    EchoIsStripped(echo, CPIN_REPLY, "AT+CPIN?");
  }

  /** A NUL at index `n` after `n` non-NUL characters ends the C string there. */
  lemma CStrPrefix(s: string, n: nat)
    requires n < |s| && NoNul(s[..n]) && s[n] == '\0'
    ensures CStr(s) == s[..n]
  {
    var m := CStrLength(s);
    assert forall i :: 0 <= i < n ==> s[i] == s[..n][i];
    assert forall i :: 0 <= i < m ==> s[i] == s[..m][i];
  }
}
