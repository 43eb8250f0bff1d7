/**
 The lines of a configuration file as one writes them: a keyword, blanks, a value.  What each
 leaves in the fields is said here in terms of the text alone.
 */
module ConfigLines {
  import opened CStrings
  import opened Options
  import opened Config
  import opened ConfigLaws

  /** Which commands address which field; a longer word does, too, and for local_netmask the last
      letter is not looked at. */
  lemma DispatchTable(command: string, k: Key)
    ensures Dispatch(command) == Some(k)
            <==> match k
                 case RemoteHost => "remote_host" <= command
                 case RemotePort => "remote_port" <= command
                 case LocalPort => "local_port" <= command
                 case LocalIp => "local_ip" <= command
                 case LocalNetmask => "local_netmas" <= command
                 case RemoteIp => "remote_ip" <= command
                 case PluginName => "plugin" <= command
                 case Mode => "mode" <= command
                 case SipPort => "sip_port" <= command
                 case SipTransport => "sip_transport" <= command
                 case SipProxy => "sip_proxy" <= command
                 case SipRemoteUri => "sip_remoteuri" <= command
                 case SipFromUri => "sip_fromuri" <= command
  {
    DispatchExactly(command, k);
  }

  /** A line with any blanks in front, between and behind. */
  function Line(i: nat, command: string, j: nat, value: string, rest: string): string {
    Blanks(i) + (command + (Blanks(j) + (value + rest)))
  }

  /** A command of one word that starts with the keyword of a field, and one value. */
  ghost predicate Assigns(k: Key, command: string, j: nat, value: string, rest: string) {
    && Keyword(k) <= command && ' ' !in command && '#' !in command
    && j > 0 && value != [] && ' ' !in value && '#' !in value
    && (rest == [] || rest[0] == ' ') && '#' !in rest
  }

  lemma KeywordNotEmpty(k: Key)
    ensures Keyword(k) != []
  {
    if Keyword(k) == [] {
      KeywordFacts(k, Keyword(k));
    }
  }

  lemma Addressed(k: Key, i: nat, command: string, j: nat, value: string, rest: string)
    requires Assigns(k, command, j, value, rest)
    ensures var line := Line(i, command, j, value, rest);
            Target(line) == Some(k) && Value(line) == value
  {
    KeywordNotEmpty(k);
    Tokens(i, command, j, value, rest);
    DispatchExactly(command, k);
    assert '#' !in Blanks(i) && '#' !in Blanks(j);
  }

  /** The source is defined on such a line, if a number in it fits an int. */
  lemma AssignmentDefined(k: Key, i: nat, command: string, j: nat, value: string, rest: string)
    requires Assigns(k, command, j, value, rest)
    ensures Defined(Line(i, command, j, value, rest))
            <==> (k in {RemotePort, LocalPort, SipPort} ==> -0x8000_0000 <= Atoi(value) <= 0x7FFF_FFFF)
  {
    Addressed(k, i, command, j, value, rest);
    KeywordNotEmpty(k);
    Tokens(i, command, j, value, rest);
  }

  // ---- what a line does ----

  /** A line with a number sign anywhere, or an empty one, changes nothing and is no error. */
  lemma CommentLine(g: Globals, line: string)
    requires Shaped(g) && ('#' in line || line == [])
    ensures !Fails(line) && Parsed(g, line) == g
  {
  }

  /** Nor does a line whose command starts with none of the keywords. */
  lemma UnknownLine(g: Globals, line: string)
    requires Shaped(g) && forall k: Key :: !(Keyword(k) <= Command(line))
    ensures !Fails(line) && Parsed(g, line) == g
  {
    DispatchSound(Command(line));
  }

  lemma SlotStored(g: Globals, line: string, k: Key)
    requires Shaped(g) && Clean(g) && Target(line) == Some(k) && !Ignored(k, Value(line))
    ensures Parsed(g, line) == g[k := SlotOf(k, Value(line))]
  {
    ParsedSlot(g, line, k);
    assert Parsed(g, line) == g[k := Parsed(g, line)[k]];
  }

  lemma NumberStored(g: Globals, k: Key, i: nat, command: string, j: nat, value: string, rest: string)
    requires Shaped(g) && Clean(g) && k in {RemotePort, LocalPort, SipPort} && Assigns(k, command, j, value, rest)
    ensures var line := Line(i, command, j, value, rest);
            && (Fails(line) <==> Unsigned(Atoi(value)) == 0)
            && Parsed(g, line) == g[k := Number(Unsigned(Atoi(value)))]
  {
    Addressed(k, i, command, j, value, rest);
    SlotStored(g, Line(i, command, j, value, rest), k);
  }

  /** A decimal number below 2^31 is stored as it is; zero is the error that changes nothing. */
  lemma NumberLine(g: Globals, k: Key, i: nat, command: string, j: nat, n: nat, rest: string)
    requires Shaped(g) && Clean(g) && k in {RemotePort, LocalPort, SipPort}
    requires Assigns(k, command, j, "0", rest) && n < 0x8000_0000
    ensures var line := Line(i, command, j, Decimal(n), rest);
            if n == 0 then Fails(line) else !Fails(line) && Parsed(g, line) == g[k := Number(n)]
  {
    DecimalIsPlain(n);
    AtoiOfDecimal(n);
    NumberStored(g, k, i, command, j, Decimal(n), rest);
    Complement(n);
  }

  /** With a minus sign it is stored as its complement to 2^32. */
  lemma NegativeLine(g: Globals, k: Key, i: nat, command: string, j: nat, n: nat, rest: string)
    requires Shaped(g) && Clean(g) && k in {RemotePort, LocalPort, SipPort}
    requires Assigns(k, command, j, "0", rest) && n < 0x8000_0000
    ensures var line := Line(i, command, j, "-" + Decimal(n), rest);
            if n == 0 then Fails(line) else !Fails(line) && Parsed(g, line) == g[k := Number(0x1_0000_0000 - n)]
  {
    DecimalIsPlain(n);
    AtoiOfDecimal(n);
    NumberStored(g, k, i, command, j, "-" + Decimal(n), rest);
    Complement(n);
  }

  lemma Complement(n: nat)
    requires n < 0x8000_0000
    ensures Unsigned(n) == n && Unsigned(-(n as int)) == if n == 0 then 0 else 0x1_0000_0000 - n
  {
  }

  lemma DecimalIsPlain(n: nat)
    ensures ' ' !in Decimal(n) && '#' !in Decimal(n)
    ensures "-" + Decimal(n) != [] && ' ' !in "-" + Decimal(n) && '#' !in "-" + Decimal(n)
  {
  }

  /** The field reads as the first 50 characters of the value, whatever it held. */
  lemma TextLine(g: Globals, k: Key, i: nat, command: string, j: nat, value: string, rest: string)
    requires Shaped(g) && Clean(g) && !k.Mode? && k !in {RemotePort, LocalPort, SipPort}
    requires Assigns(k, command, j, value, rest) && NUL !in value
    ensures var line := Line(i, command, j, value, rest);
            && !Fails(line) && Parsed(g, line)[k].Text? && Parsed(g, line) == g[k := Parsed(g, line)[k]]
            && CStr(Parsed(g, line)[k].buffer) == if |value| <= 50 then value else value[..50]
  {
    Addressed(k, i, command, j, value, rest);
    SlotStored(g, Line(i, command, j, value, rest), k);
    CStrWhole(value);
    BufferReads(Take(value, COPIED));
  }

  /** A value that starts with server sets the mode to 0, one that starts with client to 1, and any
      other leaves it. */
  lemma ModeLine(g: Globals, i: nat, command: string, j: nat, value: string, rest: string)
    requires Shaped(g) && Clean(g) && Assigns(Mode, command, j, value, rest)
    ensures var line := Line(i, command, j, value, rest);
            && !Fails(line)
            && ("server" <= value ==> Parsed(g, line) == g[Mode := ModeIs(0)])
            && ("client" <= value ==> Parsed(g, line) == g[Mode := ModeIs(1)])
            && (!("server" <= value) && !("client" <= value) ==> Parsed(g, line) == g)
  {
    Addressed(Mode, i, command, j, value, rest);
    assert "server"[0] == 's' && "client"[0] == 'c';
  }

  /** An unset port holds the unsigned image of -1, so a line with port -1 unsets it again. */
  lemma MinusOneUnsets(g: Globals, k: Key)
    requires Shaped(g) && Clean(g) && k.LocalPort?
    ensures Parsed(g, Line(0, "local_port", 1, "-" + Decimal(1), "")) == g[LocalPort := InitialSlot(LocalPort)]
  {
    NegativeLine(g, k, 0, "local_port", 1, 1, "");
  }

  // ---- anywhere in a file ----

  /** A comment, an empty line or one with an unknown command may stand anywhere without effect. */
  lemma SkippedLine(g: Globals, a: seq<string>, line: string, b: seq<string>)
    requires Shaped(g) && Clean(g)
    requires '#' in line || line == [] || forall k: Key :: !(Keyword(k) <= Command(line))
    ensures ParseLines(g, a + [line] + b).Done? <==> ParseLines(g, a + b).Done?
    ensures ParseLines(g, a + b).Done? ==> ParseLines(g, a + [line] + b).g == ParseLines(g, a + b).g
  {
    DispatchSound(Command(line));
    forall k: Key ensures History(a + [line] + b, k) == History(a + b, k) {
      HistoryOfOne(line, k);
      ReplaceMiddle(a, [line], [], b, k);
      assert a + [] + b == a + b;
    }
    OrderIndependent(g, a + [line] + b, a + b);
  }
}
