/**
 * Sending a line to the Minecraft console through GNU screen
 * (utils/send_message.py and its stand-alone twin utils/message.py).
 *
 * The session ids are scraped from the output of `screen -ls` with the
 * pattern `\t(\d+\.\S+)`; every session then gets the command typed into it,
 * a chat message becoming `/say <message>`. The call succeeds when at least
 * one session took the command. The subprocess calls and the reading of the
 * server log are parameters: `listing` is what `screen -ls` printed (None
 * when it raised), `attempt(k)` is how the k-th `screen -X stuff` ended, and
 * `log(path)` is how opening the server log went.
 */
module ScreenMessage {
  import opened Wrappers
  import opened Text
  import Config

  // ---------------------------------------------------------------- the session scanner

  /** Length of the run of ASCII digits at the front of `s` (`\d+`, greedily). */
  function DigitCount(s: string): (n: nat)
    ensures n <= |s|
    ensures forall i :: 0 <= i < n ==> IsDigit(s[i])
    ensures n < |s| ==> !IsDigit(s[n])
  {
    if s == [] || !IsDigit(s[0]) then 0 else 1 + DigitCount(s[1..])
  }

  /** The strings `\d+\.\S+` matches in full: digits, a dot, and at least one
      non-space character. */
  predicate IsSessionId(w: string) {
    var d := DigitCount(w);
    0 < d && d + 1 < |w| && w[d] == '.' && NoSpace(w[d + 1..])
  }

  /** The match of `\t(\d+\.\S+)` starting at the front of `s`, as the end of
      the match; the captured group is `s[1..end]`. `\d+` cannot give back a
      digit to let `\.` match, and `\S+` takes the whole run of non-space
      characters, so the pattern never backtracks. */
  function MatchAt(s: string): (r: Option<nat>)
    ensures r.Some? ==> 1 < r.value <= |s| && s[0] == '\t' && IsSessionId(s[1..r.value])
    ensures r.Some? ==> r.value == |s| || IsSpace(s[r.value])
  {
    if s == [] || s[0] != '\t' then None
    else
      var d := DigitCount(s[1..]);
      if d == 0 || d + 1 >= |s| || s[d + 1] != '.' then None
      else
        var n := WordLength(s[d + 2..]);
        if n == 0 then None
        else
          MatchedId(s, d, n);
          Some(d + 2 + n)
  }

  /** The text a successful match spans is a session id followed by
      whitespace or the end. */
  lemma MatchedId(s: string, d: nat, n: nat)
    requires 1 <= |s| && d == DigitCount(s[1..]) && 0 < d && d + 1 < |s| && s[d + 1] == '.'
    requires n == WordLength(s[d + 2..]) && n > 0
    ensures d + 2 + n <= |s| && IsSessionId(s[1..d + 2 + n])
    ensures d + 2 + n == |s| || IsSpace(s[d + 2 + n])
  {
    var t := s[1..];
    var w := s[1..d + 2 + n];
    assert w == t[..d + 1 + n];
    DigitCountPrefix(t, d + 1 + n);
    assert w[d] == '.';
    assert w[d + 1..] == s[d + 2..][..n];
  }

  /** `DigitCount` only looks as far as the first non-digit. */
  lemma {:induction false} DigitCountPrefix(s: string, k: nat)
    requires DigitCount(s) < k <= |s|
    ensures DigitCount(s[..k]) == DigitCount(s)
  {
    if s != [] && IsDigit(s[0]) {
      assert s[..k][1..] == s[1..][..k - 1];
      DigitCountPrefix(s[1..], k - 1);
    }
  }

  /** Nor does it look past a non-digit into what follows. */
  lemma {:induction false} DigitCountAppend(a: string, b: string)
    requires DigitCount(a) < |a|
    ensures DigitCount(a + b) == DigitCount(a)
  {
    assert (a + b)[0] == a[0];
    if IsDigit(a[0]) {
      assert (a + b)[1..] == a[1..] + b;
      DigitCountAppend(a[1..], b);
    }
  }

  /** `re.findall(r'\t(\d+\.\S+)', s)`: the captured groups of the matches,
      found left to right, each search resuming where the last match ended. */
  function FindSessions(s: string): (ids: seq<string>)
    ensures forall i :: 0 <= i < |ids| ==> IsSessionId(ids[i])
    decreases |s|
  {
    if s == [] then []
    else
      match MatchAt(s)
      case Some(e) => [s[1..e]] + FindSessions(s[e..])
      case None => FindSessions(s[1..])
  }

  /** Text without a tab holds no session id, whatever follows it. */
  lemma {:induction false} FindSkipsNoTab(a: string, b: string)
    requires forall i :: 0 <= i < |a| ==> a[i] != '\t'
    ensures FindSessions(a + b) == FindSessions(b)
  {
    if a != [] {
      assert (a + b)[0] == a[0];
      assert (a + b)[1..] == a[1..] + b;
      FindSkipsNoTab(a[1..], b);
    } else {
      assert a + b == b;
    }
  }

  /** A tab, a session id and then whitespace (or the end): the id is found,
      and the search goes on after it. */
  lemma FindLine(id: string, rest: string)
    requires IsSessionId(id)
    requires rest == [] || IsSpace(rest[0])
    ensures FindSessions("\t" + id + rest) == [id] + FindSessions(rest)
  {
    var s := "\t" + id + rest;
    var d := DigitCount(id);
    IdParts(id);
    LineParts(id, rest, d);
    DigitCountAppend(id, rest);
    WordLengthOfWord(id[d + 1..], rest);
    MatchAtSpans(s, d, |id| - d - 1);
    assert s[1..1 + |id|] == id;
    assert s[1 + |id|..] == rest;
  }

  /** A session id is a digit run, a dot, and a word. */
  lemma IdParts(id: string)
    requires IsSessionId(id)
    ensures var d := DigitCount(id); 0 < d && d + 1 < |id| && id[d] == '.' && NoSpace(id[d + 1..])
  {
  }

  /** How a session line splits around the `k`-th character of its id. */
  lemma LineParts(id: string, rest: string, k: nat)
    requires k < |id|
    ensures var s := "\t" + id + rest;
            && |s| > k + 1 && s[0] == '\t' && s[1..] == id + rest
            && s[k + 1] == id[k] && s[k + 2..] == id[k + 1..] + rest
  {
    var s := "\t" + id + rest;
    assert s[1..] == id + rest;
    assert s[k + 2..] == id[k + 1..] + rest;
  }

  /** Where the match ends, given the length of its digit run and of its
      final word. */
  lemma MatchAtSpans(s: string, d: nat, n: nat)
    requires |s| > 0 && s[0] == '\t'
    requires d == DigitCount(s[1..]) && 0 < d && d + 1 < |s| && s[d + 1] == '.'
    requires n == WordLength(s[d + 2..]) && n > 0
    ensures MatchAt(s) == Some(d + 2 + n)
  {
  }

  /** The fields `screen -ls` prints after a session id, each as
      `\t(<field>)`: the start time, the attach state. */
  function Fields(fs: seq<string>): string {
    if fs == [] then "" else "\t(" + fs[0] + ")" + Fields(fs[1..])
  }

  /** The lines `screen -ls` prints for its sessions: `\t<id>` and that
      session's fields, then a line break. */
  function SessionLines(ids: seq<string>, fields: seq<seq<string>>): string
    requires |fields| == |ids|
  {
    if ids == [] then "" else "\t" + ids[0] + Fields(fields[0]) + "\n" + SessionLines(ids[1..], fields[1..])
  }

  function NoTab(s: string): bool {
    forall i :: 0 <= i < |s| ==> s[i] != '\t'
  }

  /** No field text holds a tab. */
  predicate PlainFields(fields: seq<seq<string>>) {
    forall i, j :: 0 <= i < |fields| && 0 <= j < |fields[i]| ==> NoTab(fields[i][j])
  }

  /** Scanning a `screen -ls` listing (a header, one line per session, a
      footer, none of which holds a tab outside the session lines and their
      field separators) gives back exactly the listed sessions, in order. */
  lemma {:induction false} ListingSessions(header: string, ids: seq<string>, fields: seq<seq<string>>, footer: string)
    requires |fields| == |ids|
    requires NoTab(header) && PlainFields(fields) && NoTab(footer)
    requires forall i :: 0 <= i < |ids| ==> IsSessionId(ids[i])
    ensures FindSessions(header + SessionLines(ids, fields) + footer) == ids
  {
    FindSkipsNoTab(header, SessionLines(ids, fields) + footer);
    assert header + SessionLines(ids, fields) + footer == header + (SessionLines(ids, fields) + footer);
    LinesThenFooter(ids, fields, footer);
  }

  lemma {:induction false} LinesThenFooter(ids: seq<string>, fields: seq<seq<string>>, footer: string)
    requires |fields| == |ids|
    requires PlainFields(fields) && NoTab(footer)
    requires forall i :: 0 <= i < |ids| ==> IsSessionId(ids[i])
    ensures FindSessions(SessionLines(ids, fields) + footer) == ids
    decreases |ids|
  {
    if ids == [] {
      assert SessionLines(ids, fields) + footer == footer + [];
      FindSkipsNoTab(footer, []);
    } else {
      var more := SessionLines(ids[1..], fields[1..]) + footer;
      assert SessionLines(ids, fields) + footer == "\t" + ids[0] + Fields(fields[0]) + "\n" + more;
      SessionLine(ids[0], fields[0], more);
      assert PlainFields(fields[1..]) by {
        forall i, j | 0 <= i < |fields[1..]| && 0 <= j < |fields[1..][i]| ensures NoTab(fields[1..][i][j]) {
          assert fields[1..][i] == fields[i + 1];
        }
      }
      LinesThenFooter(ids[1..], fields[1..], footer);
    }
  }

  /** One session line gives its id, and the search goes on after it. */
  lemma SessionLine(id: string, fs: seq<string>, more: string)
    requires IsSessionId(id)
    requires forall j :: 0 <= j < |fs| ==> NoTab(fs[j])
    ensures FindSessions("\t" + id + Fields(fs) + "\n" + more) == [id] + FindSessions(more)
  {
    var rest := Fields(fs) + "\n" + more;
    assert "\t" + id + Fields(fs) + "\n" + more == "\t" + id + rest;
    LineEnd(fs, more);
    FindLine(id, rest);
  }

  /** What follows a session id on its line starts with whitespace and
      matches nothing. */
  lemma LineEnd(fs: seq<string>, more: string)
    requires forall j :: 0 <= j < |fs| ==> NoTab(fs[j])
    ensures var rest := Fields(fs) + "\n" + more;
            && |rest| > 0 && IsSpace(rest[0])
            && FindSessions(rest) == FindSessions(more)
  {
    var rest := Fields(fs) + "\n" + more;
    assert rest[0] == '\t' || rest[0] == '\n';
    assert rest == Fields(fs) + ("\n" + more);
    SkipFields(fs, "\n" + more);
    FindSkipsNoTab("\n", more);
  }

  /** A session's fields match nothing. */
  lemma {:induction false} SkipFields(fs: seq<string>, more: string)
    requires forall j :: 0 <= j < |fs| ==> NoTab(fs[j])
    ensures FindSessions(Fields(fs) + more) == FindSessions(more)
    decreases |fs|
  {
    if fs == [] {
      assert Fields(fs) + more == more;
    } else {
      assert Fields(fs) + more == "\t(" + fs[0] + ")" + (Fields(fs[1..]) + more);
      SkipField(fs[0], Fields(fs[1..]) + more);
      SkipFields(fs[1..], more);
    }
  }

  /** One `\t(<field>)` matches nothing: a parenthesis is not a digit. */
  lemma SkipField(field: string, more: string)
    requires NoTab(field)
    ensures FindSessions("\t(" + field + ")" + more) == FindSessions(more)
  {
    var t := "(" + field + ")";
    var s := "\t(" + field + ")" + more;
    assert s == "\t" + (t + more);
    assert s[1..] == t + more;
    assert s[1..][0] == '(';
    assert MatchAt(s) == None;
    FindSkipsNoTab(t, more);
  }

  // ---------------------------------------------------------------- the command typed

  /** A message that starts with `/` is already a console command; anything
      else is said in chat. */
  function CommandFor(message: string): (cmd: string)
    ensures StartsWith(cmd, "/")
    ensures cmd == message <==> StartsWith(message, "/")
    ensures !StartsWith(message, "/") ==> cmd == "/say " + message
  {
    if StartsWith(message, "/") then message else "/say " + message
  }

  /** What `screen -X stuff` types: a fresh line, the command, Enter. */
  function Payload(message: string): string {
    "\n" + CommandFor(message) + "\n"
  }

  // ---------------------------------------------------------------- the fan-out

  /** How one `subprocess.run(['screen', '-S', id, '-X', 'stuff', ...], check=True, timeout=3)`
      ended: it worked, exited non-zero, timed out, or raised anything else. */
  datatype SendOutcome = Delivered | Failed | TimedOut | Crashed

  /** How opening the server log ended: read, FileNotFoundError, or another error. */
  datatype LogOutcome = LogRead | LogMissing | LogError

  /** One `screen -X stuff` issued: the session and the text typed into it. */
  datatype Send = Send(session: string, payload: string)

  /** The first of the n attempts that raised something other than the two
      errors the loop catches, or n when none did. */
  function FirstCrash(attempt: nat -> SendOutcome, n: nat): (m: nat)
    ensures m <= n
    ensures forall k :: 0 <= k < m ==> attempt(k) != Crashed
    ensures m < n ==> attempt(m) == Crashed
  {
    if n == 0 then 0
    else
      var m := FirstCrash(attempt, n - 1);
      if m < n - 1 then m else if attempt(n - 1) == Crashed then n - 1 else n
  }

  /** When the whole call reports success: there were sessions, no send
      raised an unexpected error, at least one send went through, and reading
      the log did not fail in a way other than the file being missing. */
  predicate Succeeds(sessions: seq<string>, attempt: nat -> SendOutcome, logResult: LogOutcome) {
    && |sessions| > 0
    && FirstCrash(attempt, |sessions|) == |sessions|
    && (exists k :: 0 <= k < |sessions| && attempt(k) == Delivered)
    && logResult != LogError
  }

  /** The loop over the sessions. Failed and timed-out sends are caught and the
      loop goes on; any other error leaves the loop, and the call. */
  method FanOut(sessions: seq<string>, message: string, attempt: nat -> SendOutcome)
    returns (success: bool, crashed: bool, sent: seq<Send>)
    ensures crashed <==> FirstCrash(attempt, |sessions|) < |sessions|
    ensures |sent| == if crashed then FirstCrash(attempt, |sessions|) + 1 else |sessions|
    ensures forall k :: 0 <= k < |sent| ==> sent[k] == Send(sessions[k], Payload(message))
    ensures !crashed ==> (success <==> exists k :: 0 <= k < |sessions| && attempt(k) == Delivered)
  {
    success, crashed, sent := false, false, [];
    var i := 0;
    while i < |sessions| && !crashed
      invariant 0 <= i <= |sessions|
      invariant |sent| == i
      invariant forall k :: 0 <= k < i ==> sent[k] == Send(sessions[k], Payload(message))
      invariant !crashed ==> forall k :: 0 <= k < i ==> attempt(k) != Crashed
      invariant crashed ==> 0 < i && FirstCrash(attempt, |sessions|) == i - 1
      invariant !crashed ==> (success <==> exists k :: 0 <= k < i && attempt(k) == Delivered)
    {
      var cmd := if StartsWith(message, "/") then message else "/say " + message;
      var outcome := attempt(i);
      sent := sent + [Send(sessions[i], "\n" + cmd + "\n")];
      if outcome == Delivered {
        success := true;
      } else if outcome == Crashed {
        crashed := true;
      }
      i := i + 1;
    }
    if !crashed {
      assert FirstCrash(attempt, |sessions|) == |sessions|;
    }
  }

  /** `os.path.join(root, 'logs', 'latest.log')`. */
  function LogPath(root: string): string {
    PathJoin(PathJoin(root, "logs"), "latest.log")
  }

  /** utils/send_message.py: the log lives under the configured server root;
      looking the root up can raise too, and is caught like every other error. */
  method SendServerMessage(cm: Config.ConfigManager, listing: Option<string>, message: string,
                           attempt: nat -> SendOutcome, log: string -> LogOutcome)
    returns (ok: bool, sent: seq<Send>)
    ensures listing.None? ==> !ok && sent == []
    ensures listing.Some? && FindSessions(listing.value) == [] ==> !ok && sent == []
    ensures listing.Some? ==>
              var sessions := FindSessions(listing.value);
              && |sent| <= |sessions|
              && (forall k :: 0 <= k < |sent| ==> sent[k] == Send(sessions[k], Payload(message)))
              && (FirstCrash(attempt, |sessions|) == |sessions| ==> |sent| == |sessions|)
    ensures ok <==> listing.Some? && cm.ServerRoot().Ok?
                    && Succeeds(FindSessions(listing.value), attempt, log(LogPath(cm.ServerRoot().value)))
  {
    if listing.None? {
      return false, [];
    }
    var sessions := FindSessions(listing.value);
    if sessions == [] {
      return false, [];
    }
    var success, crashed;
    success, crashed, sent := FanOut(sessions, message, attempt);
    if crashed {
      return false, sent;
    }
    var root := cm.ServerRoot();
    if root.Err? {
      return false, sent;
    }
    var logResult := log(LogPath(root.value));
    ok := logResult != LogError && success;
  }

  /** utils/message.py: the same rules, with the log looked up relative to the
      working directory. */
  method SendFromScript(listing: Option<string>, message: string,
                        attempt: nat -> SendOutcome, log: string -> LogOutcome)
    returns (ok: bool, sent: seq<Send>)
    ensures listing.None? ==> !ok && sent == []
    ensures listing.Some? && FindSessions(listing.value) == [] ==> !ok && sent == []
    ensures listing.Some? ==>
              var sessions := FindSessions(listing.value);
              && |sent| <= |sessions|
              && (forall k :: 0 <= k < |sent| ==> sent[k] == Send(sessions[k], Payload(message)))
              && (FirstCrash(attempt, |sessions|) == |sessions| ==> |sent| == |sessions|)
    ensures ok <==> listing.Some? && Succeeds(FindSessions(listing.value), attempt, log(LogPath("")))
  {
    if listing.None? {
      return false, [];
    }
    var sessions := FindSessions(listing.value);
    if sessions == [] {
      return false, [];
    }
    var success, crashed;
    success, crashed, sent := FanOut(sessions, message, attempt);
    if crashed {
      return false, sent;
    }
    var logResult := log(LogPath(""));
    ok := logResult != LogError && success;
  }

  /** The `__main__` block of utils/message.py: exactly one argument after the
      script name, and exit status 1 on a usage error or a failed send. */
  method RunAsScript(argv: seq<string>, listing: Option<string>,
                     attempt: nat -> SendOutcome, log: string -> LogOutcome)
    returns (status: int)
    ensures status == 0 || status == 1
    ensures |argv| != 2 ==> status == 1
    ensures status == 0 <==> |argv| == 2 && listing.Some?
                             && Succeeds(FindSessions(listing.value), attempt, log(LogPath("")))
  {
    if |argv| != 2 {
      return 1;
    }
    var ok, _ := SendFromScript(listing, argv[1], attempt, log);
    status := if ok then 0 else 1;
  }

  /** A missing log file changes nothing about the outcome. */
  lemma MissingLogIsHarmless(sessions: seq<string>, attempt: nat -> SendOutcome)
    ensures Succeeds(sessions, attempt, LogMissing) == Succeeds(sessions, attempt, LogRead)
  {
  }

  /** One delivered send is enough, as long as no later send raised
      unexpectedly; failures and timeouts around it do not matter. */
  lemma {:induction false} OneDeliveryIsEnough(sessions: seq<string>, attempt: nat -> SendOutcome, j: nat)
    requires j < |sessions| && attempt(j) == Delivered
    requires forall k :: 0 <= k < |sessions| ==> attempt(k) != Crashed
    ensures Succeeds(sessions, attempt, LogRead)
  {
    NoCrashAtAll(attempt, |sessions|);
  }

  lemma {:induction false} NoCrashAtAll(attempt: nat -> SendOutcome, n: nat)
    requires forall k :: 0 <= k < n ==> attempt(k) != Crashed
    ensures FirstCrash(attempt, n) == n
  {
  }
}
