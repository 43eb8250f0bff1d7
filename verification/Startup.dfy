/**
 plugin_checkConfig and the parameter checks of the two plugins: which files let the program
 start.  main goes on to this check even when the file could not be parsed to its end, so the
 answer depends on the lines kept.
 */
module Startup {
  import opened CStrings
  import opened Options
  import opened Config
  import opened ConfigLaws

  /** strncmp(field, prefix, strlen(prefix)) == 0 */
  ghost predicate Starts(g: Globals, k: Key, prefix: string)
    requires Shaped(g) && IsText(k)
  {
    prefix <= g[k].buffer
  }

  /** tcp_checkParameters; in client mode the missing parameters are only logged. */
  ghost function TcpCheck(g: Globals): int
    requires Shaped(g)
  {
    var mode := g[Mode].mode;
    if mode == -1 then -1
    else if mode == SERVER_MODE then
      (if g[LocalPort].n == UNSET_PORT || Starts(g, LocalIp, NONE_TEXT) || Starts(g, RemoteIp, NONE_TEXT) then -1
       else 0)
    else if mode == CLIENT_MODE then 0
    else -1
  }

  /** sip_checkParameters; its tests of the addresses of two buffers never fail. */
  ghost function SipCheck(g: Globals): int
    requires Shaped(g)
  {
    if g[SipPort].n == 0 then -1 else 0
  }

  /** plugin_checkConfig */
  ghost function CheckConfig(g: Globals): int
    requires Shaped(g)
  {
    if Starts(g, PluginName, "tcp") then TcpCheck(g)
    else if Starts(g, PluginName, "sip") then SipCheck(g)
    else -1
  }

  /** The last value given for a text field starts with the given word. */
  predicate LastStarts(lines: seq<string>, k: Key, prefix: string) {
    var v := LastValue(lines, k);
    v.Some? && prefix <= CStr(v.value)
  }

  /** The last value given for a text field does not start with the word none. */
  predicate LastIsSet(lines: seq<string>, k: Key) {
    LastValue(lines, k).Some? && !LastStarts(lines, k, NONE_TEXT)
  }

  /** The files that let the program start, read off their lines. */
  predicate Accepted(lines: seq<string>) {
    var mode, port := LastValue(lines, Mode), LastValue(lines, LocalPort);
    || (LastStarts(lines, PluginName, "tcp") && mode.Some? && "client" <= mode.value)
    || (LastStarts(lines, PluginName, "tcp") && mode.Some? && "server" <= mode.value
        && port.Some? && Unsigned(Atoi(port.value)) != UNSET_PORT
        && LastIsSet(lines, LocalIp) && LastIsSet(lines, RemoteIp))
    || (LastStarts(lines, PluginName, "sip") && LastValue(lines, SipPort).Some?)
  }

  // ---- proofs ----

  /** A prefix test sees only the C string, and not beyond the 50 characters that are copied. */
  lemma PrefixOfBuffer(prefix: string, v: string)
    requires NUL !in prefix && |prefix| <= COPIED
    ensures prefix <= Buffer(Take(CStr(v), COPIED)) <==> prefix <= CStr(v)
  {
    var t := Take(CStr(v), COPIED);
    var b := Buffer(t);
    assert |t| < |prefix| ==> b[|t|] == NUL;
  }

  lemma FieldStarts(lines: seq<string>, k: Key, prefix: string)
    requires IsText(k) && NUL !in prefix && |prefix| <= COPIED
    ensures Starts(ParseLines(Initial(), lines).g, k, prefix)
            <==> match LastValue(Kept(lines), k)
                 case None => prefix <= Buffer(InitialText(k))
                 case Some(v) => prefix <= CStr(v)
  {
    LastValueWins(Initial(), lines, k);
    if LastValue(Kept(lines), k).Some? {
      PrefixOfBuffer(prefix, LastValue(Kept(lines), k).value);
    }
  }

  lemma InitialPluginName()
    ensures !("tcp" <= Buffer(InitialText(PluginName))) && !("sip" <= Buffer(InitialText(PluginName)))
  {
    assert Buffer(NONE_TEXT)[0] == 'n' && "tcp"[0] == 't' && "sip"[0] == 's';
  }

  lemma InitialAddress(k: Key)
    requires k.LocalIp? || k.RemoteIp?
    ensures NONE_TEXT <= Buffer(InitialText(k))
  {
  }

  lemma PluginNameTests(lines: seq<string>)
    ensures var g := ParseLines(Initial(), lines).g;
            && (Starts(g, PluginName, "tcp") <==> LastStarts(Kept(lines), PluginName, "tcp"))
            && (Starts(g, PluginName, "sip") <==> LastStarts(Kept(lines), PluginName, "sip"))
            && !(Starts(g, PluginName, "tcp") && Starts(g, PluginName, "sip"))
  {
    FieldStarts(lines, PluginName, "tcp");
    FieldStarts(lines, PluginName, "sip");
    InitialPluginName();
    assert "tcp"[0] == 't' && "sip"[0] == 's';
  }

  lemma AddressTest(lines: seq<string>, k: Key)
    requires k.LocalIp? || k.RemoteIp?
    ensures !Starts(ParseLines(Initial(), lines).g, k, NONE_TEXT) <==> LastIsSet(Kept(lines), k)
  {
    FieldStarts(lines, k, NONE_TEXT);
    InitialAddress(k);
  }

  lemma {:induction false} KeptValuesPass(lines: seq<string>, k: Key)
    requires IsNumber(k) && LastValue(Kept(lines), k).Some?
    ensures Unsigned(Atoi(LastValue(Kept(lines), k).value)) != 0
  {
    KeptPass(lines);
    LastValuePasses(Kept(lines), k);
  }

  lemma {:induction false} KeptPass(lines: seq<string>)
    ensures ErrorFree(Kept(lines))
  {
    if lines != [] && !Fails(lines[0]) {
      KeptPass(lines[1..]);
    }
  }

  lemma {:induction false} LastValuePasses(lines: seq<string>, k: Key)
    requires ErrorFree(lines) && IsNumber(k) && LastValue(lines, k).Some?
    ensures Unsigned(Atoi(LastValue(lines, k).value)) != 0
  {
    var line := lines[|lines| - 1];
    assert line in lines;
    if Target(line) != Some(k) {
      LastValuePasses(lines[..|lines| - 1], k);
    }
  }

  /** The last effective mode line names one of the two modes. */
  lemma {:induction false} ModeRecognised(lines: seq<string>)
    requires LastValue(lines, Mode).Some?
    ensures var v := LastValue(lines, Mode).value;
            ("server" <= v || "client" <= v) && !("server" <= v && "client" <= v)
  {
    var line := lines[|lines| - 1];
    if Target(line) == Some(Mode) && !Ignored(Mode, Value(line)) {
      assert "server"[0] == 's' && "client"[0] == 'c';
    } else {
      ModeRecognised(lines[..|lines| - 1]);
    }
  }

  lemma ModeField(lines: seq<string>)
    ensures var mode, v := ParseLines(Initial(), lines).g[Mode].mode, LastValue(Kept(lines), Mode);
            && (mode == SERVER_MODE <==> v.Some? && "server" <= v.value)
            && (mode == CLIENT_MODE <==> v.Some? && "client" <= v.value)
  {
    LastValueWins(Initial(), lines, Mode);
    if LastValue(Kept(lines), Mode).Some? {
      ModeRecognised(Kept(lines));
    }
  }

  /** The program starts exactly for the accepted files, whether or not they parse to the end. */
  lemma StartupExactly(lines: seq<string>)
    ensures CheckConfig(ParseLines(Initial(), lines).g) == 0 <==> Accepted(Kept(lines))
  {
    PluginNameTests(lines);
    ModeField(lines);
    AddressTest(lines, LocalIp);
    AddressTest(lines, RemoteIp);
    LastValueWins(Initial(), lines, LocalPort);
    LastValueWins(Initial(), lines, SipPort);
    if LastValue(Kept(lines), SipPort).Some? {
      KeptValuesPass(lines, SipPort);
    }
  }
}
