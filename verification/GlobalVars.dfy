/**
 global_v itself: fixed-size buffers and numbers that globals.c initialises, parser.c overwrites
 line by line, and plugin.c and the plugins test.
 */
module GlobalVars {
  import opened CStrings
  import opened Options
  import opened Config
  import opened ConfigFile
  import opened ConfigLaws
  import opened Startup

  const TCP_PLUGIN: int := 0
  const SIP_PLUGIN: int := 1

  class Vars {
    const remoteHost: array<char>
    const localIp: array<char>
    const localNetmask: array<char>
    const remoteIp: array<char>
    const pluginName: array<char>
    const sipTransport: array<char>
    const sipProxy: array<char>
    const sipRemoteUri: array<char>
    const sipFromUri: array<char>
    var remotePort: nat
    var localPort: nat
    var sipPort: nat
    var mode: int
    var plugin: int

    function Field(k: Key): array<char>
      requires IsText(k)
    {
      match k
      case RemoteHost => remoteHost
      case LocalIp => localIp
      case LocalNetmask => localNetmask
      case RemoteIp => remoteIp
      case PluginName => pluginName
      case SipTransport => sipTransport
      case SipProxy => sipProxy
      case SipRemoteUri => sipRemoteUri
      case SipFromUri => sipFromUri
    }

    ghost function Fields(): set<array<char>> {
      {remoteHost, localIp, localNetmask, remoteIp, pluginName, sipTransport, sipProxy, sipRemoteUri, sipFromUri}
    }

    ghost predicate Valid() {
      && (forall k: Key :: IsText(k) ==> Field(k).Length == FIELD_SIZE)
      && (forall j: Key, k: Key :: IsText(j) && IsText(k) && Field(j) == Field(k) ==> j == k)
    }

    /** The value of one field. */
    ghost function Now(k: Key): Slot
      reads this, Fields()
    {
      if IsText(k) then Text(Field(k)[..])
      else if k.Mode? then ModeIs(mode)
      else Number(if k.RemotePort? then remotePort else if k.LocalPort? then localPort else sipPort)
    }

    ghost function View(): Globals
      reads this, Fields()
    {
      map k: Key | true :: Now(k)
    }

    /** Which field of the struct is meant by which name. */
    lemma ViewByName()
      ensures View()[RemoteHost] == Text(remoteHost[..]) && View()[PluginName] == Text(pluginName[..])
      ensures View()[LocalIp] == Text(localIp[..]) && View()[RemoteIp] == Text(remoteIp[..])
      ensures View()[LocalNetmask] == Text(localNetmask[..]) && View()[SipTransport] == Text(sipTransport[..])
      ensures View()[SipProxy] == Text(sipProxy[..]) && View()[SipRemoteUri] == Text(sipRemoteUri[..])
      ensures View()[SipFromUri] == Text(sipFromUri[..]) && View()[Mode] == ModeIs(mode)
      ensures View()[RemotePort] == Number(remotePort) && View()[LocalPort] == Number(localPort)
      ensures View()[SipPort] == Number(sipPort)
    {
    }

    lemma ViewShaped()
      requires Valid()
      ensures Shaped(View())
    {
    }

    /** strncpy(field, value, n) */
    method CopyText(k: Key, value: string, n: nat)
      requires Valid() && IsText(k) && n <= FIELD_SIZE
      modifies Field(k)
      ensures Field(k)[..] == Strncpied(old(Field(k)[..]), value, n)
      ensures View() == old(View())[k := Text(Strncpied(old(Field(k)[..]), value, n))]
    {
      Strncpy(Field(k), value, n);
      forall j: Key | j != k ensures Now(j) == old(Now(j)) {}
    }

    method SetNumber(k: Key, n: nat)
      requires IsNumber(k)
      modifies this`remotePort, this`localPort, this`sipPort
      ensures View() == old(View())[k := Number(n)]
    {
      match k {
        case RemotePort => remotePort := n;
        case LocalPort => localPort := n;
        case SipPort => sipPort := n;
      }
    }

    // ---- parser.c ----

    method ParseText(k: Key, line: string)
      requires Valid() && IsText(k) && Target(line) == Some(k)
      modifies Field(k)
      ensures Shaped(old(View())) && View() == Parsed(old(View()), line)
    {
      ViewShaped();
      CopyText(k, Value(line), COPIED);
    }

    method ParseNumber(k: Key, line: string) returns (code: int)
      requires Valid() && IsNumber(k) && Target(line) == Some(k)
      modifies this`remotePort, this`localPort, this`sipPort
      ensures Shaped(old(View()))
      ensures Fails(line) ==> code == -1 && View() == old(View())
      ensures !Fails(line) ==> code == 0 && View() == Parsed(old(View()), line)
    {
      ViewShaped();
      var n := Unsigned(Atoi(Value(line)));
      if n == 0 {
        return -1;
      }
      SetNumber(k, n);
      code := 0;
    }

    method ParseMode(line: string)
      requires Valid() && Target(line) == Some(Mode)
      modifies this`mode
      ensures Shaped(old(View())) && View() == Parsed(old(View()), line)
    {
      ViewShaped();
      if "server" <= Value(line) {
        mode := SERVER_MODE;
      } else if "client" <= Value(line) {
        mode := CLIENT_MODE;
      }
      assert View() == old(View())[Mode := ModeIs(mode)];
    }

    /** ParseOption */
    method ParseOption(line: string) returns (code: int)
      requires Valid() && Defined(line)
      modifies this`remotePort, this`localPort, this`sipPort, this`mode, Fields()
      ensures Shaped(old(View()))
      ensures '#' in line || line == [] ==> code == 0 && View() == old(View())
      ensures Fails(line) ==> code == -1 && View() == old(View())
      ensures !Fails(line) ==> code == 0 && View() == Parsed(old(View()), line)
    {
      ViewShaped();
      code := 0;
      if '#' in line {
        return;
      }
      if line == [] {
        return;
      }
      var command := Command(line);
      if "remote_host" <= command {
        ParseText(RemoteHost, line);
      } else if "remote_port" <= command {
        code := ParseNumber(RemotePort, line);
      } else if "local_port" <= command {
        code := ParseNumber(LocalPort, line);
      } else if "local_ip" <= command {
        ParseText(LocalIp, line);
      } else if "local_netmas" <= command {
        ParseText(LocalNetmask, line);
      } else if "remote_ip" <= command {
        ParseText(RemoteIp, line);
      } else if "plugin" <= command {
        ParseText(PluginName, line);
      } else if "mode" <= command {
        ParseMode(line);
      } else {
        code := ParseSipOption(line, command);
      }
    }

    /** The tests of ParseOption for the SIP plugin's keywords. */
    method ParseSipOption(line: string, command: string) returns (code: int)
      requires Valid() && Target(line) == DispatchSip(command)
      modifies this`remotePort, this`localPort, this`sipPort, Fields()
      ensures Shaped(old(View()))
      ensures Fails(line) ==> code == -1 && View() == old(View())
      ensures !Fails(line) ==> code == 0 && View() == Parsed(old(View()), line)
    {
      ViewShaped();
      code := 0;
      if "sip_port" <= command {
        code := ParseNumber(SipPort, line);
      } else if "sip_transport" <= command {
        ParseText(SipTransport, line);
      } else if "sip_proxy" <= command {
        ParseText(SipProxy, line);
      } else {
        ParseUriOption(line, command);
      }
    }

    method ParseUriOption(line: string, command: string)
      requires Valid() && Target(line) == DispatchUri(command)
      modifies Fields()
      ensures Shaped(old(View()))
      ensures !Fails(line) && View() == Parsed(old(View()), line)
    {
      ViewShaped();
      if "sip_remoteuri" <= command {
        ParseText(SipRemoteUri, line);
      } else if "sip_fromuri" <= command {
        ParseText(SipFromUri, line);
      }
    }

    // ---- globals.c ----

    /** Static storage starts out zeroed. */
    constructor ()
      ensures Valid() && fresh(Fields()) && View() == Zeroed()
    {
      remoteHost := new char[FIELD_SIZE](_ => NUL);
      localIp := new char[FIELD_SIZE](_ => NUL);
      localNetmask := new char[FIELD_SIZE](_ => NUL);
      remoteIp := new char[FIELD_SIZE](_ => NUL);
      pluginName := new char[FIELD_SIZE](_ => NUL);
      sipTransport := new char[FIELD_SIZE](_ => NUL);
      sipProxy := new char[FIELD_SIZE](_ => NUL);
      sipRemoteUri := new char[FIELD_SIZE](_ => NUL);
      sipFromUri := new char[FIELD_SIZE](_ => NUL);
      remotePort, localPort, sipPort, mode, plugin := 0, 0, 0, 0, 0;
      new;
      forall k: Key ensures Now(k) == Zeroed()[k] {
        if IsText(k) {
          assert Field(k)[..] == Nuls(FIELD_SIZE);
        }
      }
    }

    /** Globals_Init */
    method GlobalsInit()
      requires Valid() && View() == Zeroed()
      modifies this`remotePort, this`localPort, this`mode, this`plugin, Fields()
      ensures View() == Initial() && plugin == -1
      ensures mode == -1 && remotePort == localPort == 0xFFFF_FFFF && sipPort == 0
      ensures forall k: Key | IsText(k) ::
                CStr(Field(k)[..]) == if k in {RemoteHost, PluginName, LocalIp, RemoteIp} then "none" else ""
    {
      SetNumbers();
      CopyNones();
      InitialFromZeroed();
      InitialNumbers();
      forall k: Key | IsText(k)
        ensures CStr(Field(k)[..]) == if k in {RemoteHost, PluginName, LocalIp, RemoteIp} then "none" else ""
      {
        InitialField(k);
      }
    }

    lemma InitialNumbers()
      requires View() == Initial()
      ensures mode == -1 && remotePort == localPort == 0xFFFF_FFFF && sipPort == 0
    {
      assert Now(Mode) == View()[Mode] && Now(SipPort) == View()[SipPort];
      assert Now(RemotePort) == View()[RemotePort] && Now(LocalPort) == View()[LocalPort];
    }

    lemma InitialField(k: Key)
      requires View() == Initial() && IsText(k)
      ensures CStr(Field(k)[..]) == if k in {RemoteHost, PluginName, LocalIp, RemoteIp} then "none" else ""
    {
      assert Now(k) == View()[k];
      BufferReads(InitialText(k));
    }

    method SetNumbers()
      modifies this`remotePort, this`localPort, this`mode, this`plugin
      ensures View() == old(View())[Mode := ModeIs(-1)]
        [RemotePort := Number(UNSET_PORT)][LocalPort := Number(UNSET_PORT)]
      ensures plugin == -1
    {
      mode := -1;
      plugin := -1;
      remotePort := UNSET_PORT;
      localPort := UNSET_PORT;
    }

    method CopyNones()
      requires Valid()
      requires forall k :: k in {RemoteHost, PluginName, LocalIp, RemoteIp} ==> View()[k] == Text(Nuls(FIELD_SIZE))
      modifies Fields()
      ensures View() == old(View())[RemoteHost := Text(Buffer(NONE_TEXT))][PluginName := Text(Buffer(NONE_TEXT))]
        [LocalIp := Text(Buffer(NONE_TEXT))][RemoteIp := Text(Buffer(NONE_TEXT))]
    {
      CopyNone(RemoteHost);
      CopyNone(PluginName);
      CopyNone(LocalIp);
      CopyNone(RemoteIp);
    }

    method CopyNone(k: Key)
      requires Valid() && IsText(k) && View()[k] == Text(Nuls(FIELD_SIZE))
      modifies Field(k)
      ensures View() == old(View())[k := Text(Buffer(NONE_TEXT))]
    {
      NoneIntoZeroed();
      CopyText(k, NONE_TEXT, 4);
    }

    // ---- the rest of parser.c ----

    /** ParseConfigFile: None is a file that cannot be opened; nline is the number of lines read. */
    method ParseConfigFile(file: Option<string>) returns (code: int, nline: nat)
      requires Valid()
      requires file.Some? ==> DefinedWhereRead(Pieces(file.value))
      modifies this`remotePort, this`localPort, this`sipPort, this`mode, Fields()
      ensures Shaped(old(View()))
      ensures file.None? ==> code == -1 && View() == old(View())
      ensures file.Some? ==> match ParseLines(old(View()), Pieces(file.value))
                             case Done(g) => code == 0 && View() == g && nline == |Pieces(file.value)|
                             case StoppedAt(line, g) => code == -1 && View() == g && nline == line
    {
      ViewShaped();
      nline := 0;
      if file.None? {
        return -1, nline;
      }
      var rest := file.value;
      ghost var lines, start := Pieces(file.value), View();
      while rest != []
        invariant LoopAt(start, lines, nline, rest, View())
        decreases |rest|
      {
        LoopNext(start, lines, nline, rest, View());
        var line := Chop(rest[..PieceLength(rest)]);
        rest := rest[PieceLength(rest)..];
        nline := nline + 1;
        code := ParseOption(line);
        if code != 0 {
          return -1, nline;
        }
      }
      assert lines[..nline] == lines;
      code := 0;
    }

    // ---- plugin.c and the parameter checks ----

    method FieldStarts(k: Key, literal: string) returns (yes: bool)
      requires Valid() && IsText(k) && |literal| <= FIELD_SIZE
      ensures Shaped(View()) && (yes <==> Starts(View(), k, literal))
    {
      ViewShaped();
      yes := HasPrefix(Field(k), literal);
    }

    method TcpCheckParameters() returns (code: int)
      requires Valid()
      ensures Shaped(View()) && code == TcpCheck(View())
    {
      ViewShaped();
      if mode == -1 {
        return -1;
      }
      if mode == SERVER_MODE {
        if localPort == UNSET_PORT {
          return -1;
        }
        var noLocalIp := FieldStarts(LocalIp, NONE_TEXT);
        if noLocalIp {
          return -1;
        }
        var noRemoteIp := FieldStarts(RemoteIp, NONE_TEXT);
        return if noRemoteIp then -1 else 0;
      }
      return if mode == CLIENT_MODE then 0 else -1;
    }

    method SipCheckParameters() returns (code: int)
      requires Valid()
      ensures Shaped(View()) && code == SipCheck(View())
    {
      ViewShaped();
      code := if sipPort == 0 then -1 else 0;
    }

    method UsePlugin(number: int) returns (code: int)
      requires Valid() && number in {TCP_PLUGIN, SIP_PLUGIN}
      modifies this`plugin
      ensures Shaped(View()) && View() == old(View()) && plugin == number
      ensures code == if number == TCP_PLUGIN then TcpCheck(View()) else SipCheck(View())
    {
      plugin := number;
      assert View() == old(View());
      if number == TCP_PLUGIN {
        code := TcpCheckParameters();
      } else {
        code := SipCheckParameters();
      }
    }

    /** plugin_checkConfig */
    method PluginCheckConfig() returns (code: int)
      requires Valid()
      modifies this`plugin
      ensures Shaped(View()) && View() == old(View()) && code == CheckConfig(View())
      ensures plugin == if "tcp" <= pluginName[..] then 0 else if "sip" <= pluginName[..] then 1 else old(plugin)
    {
      var isTcp := FieldStarts(PluginName, "tcp");
      if isTcp {
        code := UsePlugin(TCP_PLUGIN);
        return;
      }
      var isSip := FieldStarts(PluginName, "sip");
      if isSip {
        code := UsePlugin(SIP_PLUGIN);
        return;
      }
      code := -1;
    }
  }

  /** main up to the parameter check: the file alone decides whether the program goes on, even
      when it cannot be parsed to its end or not be opened at all. */
  method StartUp(file: Option<string>) returns (vars: Vars, code: int)
    requires file.Some? ==> DefinedWhereRead(Pieces(file.value))
    ensures code == 0 <==> file.Some? && Accepted(Kept(Pieces(file.value)))
  {
    vars := new Vars();
    vars.GlobalsInit();
    var parsed, nline := vars.ParseConfigFile(file);
    code := vars.PluginCheckConfig();
    StartupExactly(if file.Some? then Pieces(file.value) else []);
  }
}
