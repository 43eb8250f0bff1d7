/**
 The configuration: how parser.c turns lines into the fields of global_v, and what globals.c
 leaves in them beforehand.
 */
module Config {
  import opened CStrings
  import opened Options

  /** The fields that parser.c writes, in the order of its tests. */
  datatype Key =
    | RemoteHost | RemotePort | LocalPort | LocalIp | LocalNetmask | RemoteIp | PluginName | Mode
    | SipPort | SipTransport | SipProxy | SipRemoteUri | SipFromUri

  const FIELD_SIZE: nat := 256
  const COPIED: nat := 50
  const UINT_RANGE: int := 0x1_0000_0000
  const SERVER_MODE: int := 0
  const CLIENT_MODE: int := 1

  predicate IsText(k: Key) {
    !IsNumber(k) && !k.Mode?
  }

  predicate IsNumber(k: Key) {
    k.RemotePort? || k.LocalPort? || k.SipPort?
  }

  /** What is compared with the front of a command; local_netmask is tested with the length of a
      misspelled literal, one character short. */
  function Keyword(k: Key): string {
    match k
    case RemoteHost => "remote_host"
    case RemotePort => "remote_port"
    case LocalPort => "local_port"
    case LocalIp => "local_ip"
    case LocalNetmask => "local_netmas"
    case RemoteIp => "remote_ip"
    case PluginName => "plugin"
    case Mode => "mode"
    case SipPort => "sip_port"
    case SipTransport => "sip_transport"
    case SipProxy => "sip_proxy"
    case SipRemoteUri => "sip_remoteuri"
    case SipFromUri => "sip_fromuri"
  }

  /** The first test that matches. */
  function Dispatch(command: string): Option<Key> {
    if Keyword(RemoteHost) <= command then Some(RemoteHost)
    else if Keyword(RemotePort) <= command then Some(RemotePort)
    else if Keyword(LocalPort) <= command then Some(LocalPort)
    else if Keyword(LocalIp) <= command then Some(LocalIp)
    else if Keyword(LocalNetmask) <= command then Some(LocalNetmask)
    else if Keyword(RemoteIp) <= command then Some(RemoteIp)
    else if Keyword(PluginName) <= command then Some(PluginName)
    else if Keyword(Mode) <= command then Some(Mode)
    else DispatchSip(command)
  }

  function DispatchSip(command: string): Option<Key> {
    if Keyword(SipPort) <= command then Some(SipPort)
    else if Keyword(SipTransport) <= command then Some(SipTransport)
    else if Keyword(SipProxy) <= command then Some(SipProxy)
    else DispatchUri(command)
  }

  function DispatchUri(command: string): Option<Key> {
    if Keyword(SipRemoteUri) <= command then Some(SipRemoteUri)
    else if Keyword(SipFromUri) <= command then Some(SipFromUri)
    else None
  }


  lemma KeywordFacts(k: Key, command: string)
    requires Keyword(k) <= command
    ensures match k
            case RemoteHost => |command| > 7 && command[0] == 'r' && command[7] == 'h'
            case RemotePort => |command| > 7 && command[0] == 'r' && command[7] == 'p'
            case RemoteIp => |command| > 7 && command[0] == 'r' && command[7] == 'i'
            case LocalPort => |command| > 6 && command[0] == 'l' && command[6] == 'p'
            case LocalIp => |command| > 6 && command[0] == 'l' && command[6] == 'i'
            case LocalNetmask => |command| > 6 && command[0] == 'l' && command[6] == 'n'
            case PluginName => command[0] == 'p'
            case Mode => command[0] == 'm'
            case SipPort => |command| > 5 && command[0] == 's' && command[4] == 'p' && command[5] == 'o'
            case SipTransport => |command| > 5 && command[0] == 's' && command[4] == 't'
            case SipProxy => |command| > 5 && command[0] == 's' && command[4] == 'p' && command[5] == 'r'
            case SipRemoteUri => |command| > 5 && command[0] == 's' && command[4] == 'r'
            case SipFromUri => |command| > 5 && command[0] == 's' && command[4] == 'f'
  {
    match k
    case RemoteHost => assert command[0] == "remote_host"[0] && command[7] == "remote_host"[7];
    case RemotePort => assert command[0] == "remote_port"[0] && command[7] == "remote_port"[7];
    case RemoteIp => assert command[0] == "remote_ip"[0] && command[7] == "remote_ip"[7];
    case LocalPort => assert command[0] == "local_port"[0] && command[6] == "local_port"[6];
    case LocalIp => assert command[0] == "local_ip"[0] && command[6] == "local_ip"[6];
    case LocalNetmask => assert command[0] == "local_netmas"[0] && command[6] == "local_netmas"[6];
    case PluginName => assert command[0] == "plugin"[0];
    case Mode => assert command[0] == "mode"[0];
    case SipPort => assert command[0] == "sip_port"[0] && command[4] == "sip_port"[4] && command[5] == "sip_port"[5];
    case SipTransport => assert command[0] == "sip_transport"[0] && command[4] == "sip_transport"[4];
    case SipProxy =>
      assert command[0] == "sip_proxy"[0] && command[4] == "sip_proxy"[4] && command[5] == "sip_proxy"[5];
    case SipRemoteUri => assert command[0] == "sip_remoteuri"[0] && command[4] == "sip_remoteuri"[4];
    case SipFromUri => assert command[0] == "sip_fromuri"[0] && command[4] == "sip_fromuri"[4];
  }

  /** No command meets two tests. */
  lemma OneKeyword(j: Key, k: Key, command: string)
    requires Keyword(j) <= command && Keyword(k) <= command
    ensures j == k
  {
    KeywordFacts(j, command);
    KeywordFacts(k, command);
  }

  lemma DispatchSound(command: string)
    ensures Dispatch(command).Some? ==> Keyword(Dispatch(command).value) <= command
  {
  }

  lemma DispatchFinds(command: string, k: Key)
    requires Keyword(k) <= command
    ensures Dispatch(command).Some?
  {
  }

  /** So the order of the tests is irrelevant: a command is dispatched to whatever keyword it
      starts with, and to nothing exactly when it starts with none. */
  lemma DispatchExactly(command: string, k: Key)
    ensures Dispatch(command) == Some(k) <==> Keyword(k) <= command
  {
    DispatchSound(command);
    if Keyword(k) <= command {
      DispatchFinds(command, k);
      OneKeyword(Dispatch(command).value, k, command);
    }
  }

  // ---- one line ----

  /** strtok with a blank as the only separator. */
  function SkipBlanks(s: string): (t: string)
    ensures |t| <= |s|
  {
    if s != [] && s[0] == ' ' then SkipBlanks(s[1..]) else s
  }

  function Word(s: string): (t: string)
    ensures |t| <= |s| && ' ' !in t
  {
    if s == [] || s[0] == ' ' then [] else [s[0]] + Word(s[1..])
  }

  function Command(line: string): string {
    Word(SkipBlanks(line))
  }

  function Value(line: string): string {
    var rest := SkipBlanks(line);
    Word(SkipBlanks(rest[|Word(rest)|..]))
  }

  /** The field a line addresses, if any: not a comment, not empty, and a known keyword in front. */
  function Target(line: string): Option<Key> {
    if '#' in line || line == [] then None else Dispatch(Command(line))
  }

  predicate IsSpace(c: char) {
    c == ' ' || '\t' <= c <= '\r'
  }

  function Digits(s: string, n: nat): nat {
    if s != [] && '0' <= s[0] <= '9' then Digits(s[1..], 10 * n + (s[0] as int - '0' as int)) else n
  }

  function Atoi(s: string): int {
    if s == [] then 0
    else if IsSpace(s[0]) then Atoi(s[1..])
    else if s[0] == '-' then -(Digits(s[1..], 0) as int)
    else if s[0] == '+' then Digits(s[1..], 0)
    else Digits(s, 0)
  }

  // A line and a number as one would write them.

  function Blanks(n: nat): string {
    seq(n, _ => ' ')
  }

  lemma {:induction false} SkipsBlanks(n: nat, s: string)
    requires s == [] || s[0] != ' '
    ensures SkipBlanks(Blanks(n) + s) == s
  {
    if n == 0 {
      assert Blanks(0) + s == s;
    } else {
      assert (Blanks(n) + s)[1..] == Blanks(n - 1) + s;
      SkipsBlanks(n - 1, s);
    }
  }

  lemma {:induction false} WordEndsAtBlank(w: string, rest: string)
    requires ' ' !in w && (rest == [] || rest[0] == ' ')
    ensures Word(w + rest) == w && (w + rest)[|w|..] == rest
  {
    if w == [] {
      assert w + rest == rest;
    } else {
      assert (w + rest)[1..] == w[1..] + rest;
      WordEndsAtBlank(w[1..], rest);
    }
  }

  /** Any number of blanks before, between and after: the first two words are command and value. */
  lemma Tokens(i: nat, command: string, j: nat, value: string, rest: string)
    requires command != [] && ' ' !in command && value != [] && ' ' !in value && j > 0
    requires rest == [] || rest[0] == ' '
    ensures var line := Blanks(i) + (command + (Blanks(j) + (value + rest)));
            Command(line) == command && Value(line) == value
  {
    var tail := Blanks(j) + (value + rest);
    SkipsBlanks(i, command + tail);
    WordEndsAtBlank(command, tail);
    SkipsBlanks(j, value + rest);
    WordEndsAtBlank(value, rest);
  }

  function Decimal(n: nat): (s: string)
    ensures s != [] && forall i :: 0 <= i < |s| ==> '0' <= s[i] <= '9'
  {
    if n < 10 then [(n + '0' as int) as char] else Decimal(n / 10) + [(n % 10 + '0' as int) as char]
  }

  lemma {:induction false} DigitsSnoc(s: string, d: char, m: nat)
    requires (forall i :: 0 <= i < |s| ==> '0' <= s[i] <= '9') && '0' <= d <= '9'
    ensures Digits(s + [d], m) == 10 * Digits(s, m) + (d as int - '0' as int)
  {
    if s == [] {
      assert s + [d] == [d] && [d][1..] == [];
    } else {
      assert (s + [d])[1..] == s[1..] + [d];
      DigitsSnoc(s[1..], d, 10 * m + (s[0] as int - '0' as int));
    }
  }

  lemma {:induction false} DigitsOfDecimal(n: nat)
    ensures Digits(Decimal(n), 0) == n
  {
    if n < 10 {
      assert Decimal(n)[1..] == [];
    } else {
      DigitsOfDecimal(n / 10);
      DigitsSnoc(Decimal(n / 10), (n % 10 + '0' as int) as char, 0);
    }
  }

  /** atoi reads decimal numbers, with or without a sign. */
  lemma AtoiOfDecimal(n: nat)
    ensures Atoi(Decimal(n)) == n
    ensures Atoi("-" + Decimal(n)) == -(n as int) && Atoi("+" + Decimal(n)) == n
  {
    DigitsOfDecimal(n);
    assert ("-" + Decimal(n))[1..] == Decimal(n) && ("+" + Decimal(n))[1..] == Decimal(n);
  }

  /** It skips what isspace accepts in front, and stops at the first character that is no digit. */
  lemma {:induction false} AtoiOfNumeral(front: string, n: nat, rest: string)
    requires forall i :: 0 <= i < |front| ==> front[i] in {' ', '\t', '\n', '\U{B}', '\U{C}', '\r'}
    requires rest == [] || !('0' <= rest[0] <= '9')
    ensures Atoi(front + (Decimal(n) + rest)) == n
  {
    if front == [] {
      DigitsOfDecimal(n);
      DigitsStop(Decimal(n), rest, 0);
      assert [] + (Decimal(n) + rest) == Decimal(n) + rest;
    } else {
      assert (front + (Decimal(n) + rest))[1..] == front[1..] + (Decimal(n) + rest);
      AtoiOfNumeral(front[1..], n, rest);
    }
  }

  lemma {:induction false} DigitsStop(s: string, rest: string, m: nat)
    requires forall i :: 0 <= i < |s| ==> '0' <= s[i] <= '9'
    requires rest == [] || !('0' <= rest[0] <= '9')
    ensures Digits(s + rest, m) == Digits(s, m)
  {
    if s == [] {
      assert s + rest == rest;
    } else {
      assert (s + rest)[1..] == s[1..] + rest;
      DigitsStop(s[1..], rest, 10 * m + (s[0] as int - '0' as int));
    }
  }

  /** n = atoi(...), n unsigned. */
  function Unsigned(i: int): (n: nat)
    ensures n < UINT_RANGE
  {
    i % UINT_RANGE
  }

  /** Lines on which the source stays within defined C behaviour: a command there is, a known
      keyword has a value, and a number fits an int. */
  predicate Defined(line: string) {
    '#' !in line && line != [] ==>
      && Command(line) != []
      && (Target(line).Some? ==> Value(line) != [])
      && (Target(line).Some? && IsNumber(Target(line).value) ==> -0x8000_0000 <= Atoi(Value(line)) < 0x8000_0000)
  }

  /** A number of zero is the only thing ParseOption reports as an error. */
  predicate Fails(line: string) {
    Target(line).Some? && IsNumber(Target(line).value) && Unsigned(Atoi(Value(line))) == 0
  }

  // ---- fields ----

  /** A text field is its whole buffer. */
  datatype Slot = Text(buffer: string) | Number(n: nat) | ModeIs(mode: int)

  type Globals = map<Key, Slot>

  ghost predicate Shaped(g: Globals) {
    && (forall k: Key :: k in g)
    && (forall k: Key :: g[k].Text? <==> IsText(k))
    && (forall k: Key :: g[k].Text? ==> |g[k].buffer| == FIELD_SIZE)
    && (forall k: Key :: g[k].Number? <==> IsNumber(k))
  }

  /** A value without effect: mode recognises two words and ignores all others. */
  predicate Ignored(k: Key, value: string) {
    k.Mode? && !("server" <= value) && !("client" <= value)
  }

  /** What a field becomes when a line gives it a value. */
  function Stored(before: Slot, k: Key, value: string): Slot
    requires IsText(k) ==> before.Text? && |before.buffer| == FIELD_SIZE
  {
    if k.Mode? then
      (if "server" <= value then ModeIs(SERVER_MODE) else if "client" <= value then ModeIs(CLIENT_MODE) else before)
    else if IsNumber(k) then Number(Unsigned(Atoi(value)))
    else Text(Strncpied(before.buffer, value, COPIED))
  }

  /** ParseOption, for a line that it does not report. */
  ghost function Parsed(g: Globals, line: string): (g': Globals)
    requires Shaped(g)
    ensures Shaped(g')
  {
    match Target(line)
    case None => g
    case Some(k) => g[k := Stored(g[k], k, Value(line))]
  }

  // ---- a file ----

  /** What ParseConfigFile returns: all lines parsed, or the number of the line it stopped at. */
  datatype Outcome = Done(g: Globals) | StoppedAt(line: nat, g: Globals)

  /** The line loop: fold the lines, stop at the first that fails and keep what came before. */
  ghost function ParseLines(g: Globals, lines: seq<string>): (o: Outcome)
    requires Shaped(g)
    ensures Shaped(o.g)
  {
    if lines == [] then Done(g)
    else
      var before := ParseLines(g, lines[..|lines| - 1]);
      if before.StoppedAt? then before
      else if Fails(lines[|lines| - 1]) then StoppedAt(|lines|, before.g)
      else Done(Parsed(before.g, lines[|lines| - 1]))
  }

  /** The lines whose effects are kept. */
  function Kept(lines: seq<string>): (kept: seq<string>)
    ensures kept <= lines
  {
    if lines == [] then []
    else if Fails(lines[0]) then []
    else [lines[0]] + Kept(lines[1..])
  }

  /** The last value that a line gave a field and that had an effect. */
  function LastValue(lines: seq<string>, k: Key): Option<string> {
    if lines == [] then None
    else
      var line := lines[|lines| - 1];
      if Target(line) == Some(k) && !Ignored(k, Value(line)) then Some(Value(line))
      else LastValue(lines[..|lines| - 1], k)
  }
}
