/**
 What a configuration file means: each field holds the last value given for it, whatever the
 order of the other lines, and the file alone decides whether the program starts.
 */
module ConfigLaws {
  import opened CStrings
  import opened Options
  import opened Config
  import opened ConfigFile

  // ---- globals.c ----

  const NONE_TEXT: string := "none"
  const UNSET_PORT: nat := 0xFFFF_FFFF

  function InitialText(k: Key): string {
    if k.RemoteHost? || k.PluginName? || k.LocalIp? || k.RemoteIp? then NONE_TEXT else ""
  }

  /** A buffer holding a text and nothing else. */
  function Buffer(t: string): (b: string)
    requires |t| <= FIELD_SIZE
    ensures |b| == FIELD_SIZE
  {
    t + Nuls(FIELD_SIZE - |t|)
  }

  function InitialSlot(k: Key): Slot {
    if IsText(k) then Text(Buffer(InitialText(k)))
    else if k.Mode? then ModeIs(-1)
    else if k.SipPort? then Number(0)
    else Number(UNSET_PORT)
  }

  /** The zeroed global after Globals_Init. */
  ghost function Initial(): (g: Globals)
    ensures Shaped(g) && Clean(g)
    ensures forall k: Key :: g[k] == InitialSlot(k)
  {
    map k: Key | true :: InitialSlot(k)
  }

  /** A global before Globals_Init: all bytes zero. */
  ghost function Zeroed(): Globals {
    map k: Key | true ::
      if IsText(k) then Text(Nuls(FIELD_SIZE)) else if k.Mode? then ModeIs(0) else Number(0)
  }

  /** strncpy of the four characters of "none" leaves the terminator to the zeroed buffer. */
  lemma NoneIntoZeroed()
    ensures Strncpied(Nuls(FIELD_SIZE), NONE_TEXT, 4) == Buffer(NONE_TEXT)
  {
    CStrWhole(NONE_TEXT);
    assert Take(NONE_TEXT, 4) == NONE_TEXT;
  }

  lemma InitialFromZeroed()
    ensures Initial() == Zeroed()[Mode := ModeIs(-1)][RemotePort := Number(UNSET_PORT)][LocalPort := Number(UNSET_PORT)]
      [RemoteHost := Text(Buffer(NONE_TEXT))][PluginName := Text(Buffer(NONE_TEXT))]
      [LocalIp := Text(Buffer(NONE_TEXT))][RemoteIp := Text(Buffer(NONE_TEXT))]
  {
    assert Buffer("") == Nuls(FIELD_SIZE);
    var g := Zeroed()[Mode := ModeIs(-1)][RemotePort := Number(UNSET_PORT)][LocalPort := Number(UNSET_PORT)]
      [RemoteHost := Text(Buffer(NONE_TEXT))][PluginName := Text(Buffer(NONE_TEXT))]
      [LocalIp := Text(Buffer(NONE_TEXT))][RemoteIp := Text(Buffer(NONE_TEXT))];
    forall k: Key ensures g[k] == Initial()[k] {}
  }

  // ---- last write wins ----

  /** No text field holds anything but NULs from index 50 on. */
  ghost predicate Clean(g: Globals)
    requires Shaped(g)
  {
    forall k: Key :: g[k].Text? ==> forall i :: COPIED <= i < FIELD_SIZE ==> g[k].buffer[i] == NUL
  }

  /** A field's content as a function of the value alone. */
  function SlotOf(k: Key, value: string): Slot {
    if k.Mode? then ModeIs(if "server" <= value then SERVER_MODE else CLIENT_MODE)
    else if IsNumber(k) then Number(Unsigned(Atoi(value)))
    else Text(Buffer(Take(CStr(value), COPIED)))
  }

  /** strncpy pads, so no suffix of a longer earlier value survives. */
  lemma NoStaleSuffix(dst: string, value: string)
    requires |dst| == FIELD_SIZE && forall i :: COPIED <= i < FIELD_SIZE ==> dst[i] == NUL
    ensures Strncpied(dst, value, COPIED) == Buffer(Take(CStr(value), COPIED))
  {
  }

  lemma ParsedSlot(g: Globals, line: string, k: Key)
    requires Shaped(g) && Clean(g)
    ensures Clean(Parsed(g, line))
    ensures Parsed(g, line)[k]
            == if Target(line) == Some(k) && !Ignored(k, Value(line)) then SlotOf(k, Value(line)) else g[k]
  {
    if Target(line).Some? {
      var j := Target(line).value;
      if IsText(j) {
        NoStaleSuffix(g[j].buffer, Value(line));
      }
    }
  }

  lemma {:induction false} KeptSnoc(lines: seq<string>, line: string)
    ensures Kept(lines + [line]) == if |Kept(lines)| < |lines| || Fails(line) then Kept(lines) else lines + [line]
    ensures |Kept(lines)| == |lines| ==> Kept(lines) == lines
  {
    if lines == [] {
      assert Kept([line]) == if Fails(line) then [] else [line] + Kept([]);
    } else {
      assert (lines + [line])[1..] == lines[1..] + [line];
      KeptSnoc(lines[1..], line);
    }
  }

  lemma {:induction false} LastValueSnoc(lines: seq<string>, line: string, k: Key)
    ensures LastValue(lines + [line], k)
            == if Target(line) == Some(k) && !Ignored(k, Value(line)) then Some(Value(line)) else LastValue(lines, k)
  {
    assert (lines + [line])[..|lines|] == lines;
  }

  /** After any file, stopped or not, every field holds the last value that a kept line gave it,
      or what it held before. */
  lemma {:induction false} LastValueWins(g: Globals, lines: seq<string>, k: Key)
    requires Shaped(g) && Clean(g)
    ensures Clean(ParseLines(g, lines).g)
    ensures ParseLines(g, lines).Done? <==> |Kept(lines)| == |lines|
    ensures ParseLines(g, lines).StoppedAt? ==> ParseLines(g, lines).line == |Kept(lines)| + 1
    ensures ParseLines(g, lines).g[k]
            == match LastValue(Kept(lines), k) case None => g[k] case Some(v) => SlotOf(k, v)
  {
    if lines != [] {
      var before, line := lines[..|lines| - 1], lines[|lines| - 1];
      assert lines == before + [line];
      LastValueWins(g, before, k);
      KeptSnoc(before, line);
      if |Kept(before)| == |before| && !Fails(line) {
        ParsedSlot(ParseLines(g, before).g, line, k);
        LastValueSnoc(before, line, k);
      }
    }
  }

  lemma BufferReads(t: string)
    requires |t| <= COPIED && NUL !in t
    ensures CStr(Buffer(t)) == t && forall i :: COPIED <= i < FIELD_SIZE ==> Buffer(t)[i] == NUL
  {
    CStrOf(t, Nuls(FIELD_SIZE - |t|));
  }

  /** Every string field reads as the first 50 characters of its last value, or as it was
      initialised, and is NUL from index 50 on. */
  lemma TextFields(lines: seq<string>, k: Key)
    requires IsText(k)
    ensures var slot := ParseLines(Initial(), lines).g[k];
            && slot.Text? && |slot.buffer| == 256
            && (forall i :: 50 <= i < 256 ==> slot.buffer[i] == NUL)
            && CStr(slot.buffer) == match LastValue(Kept(lines), k)
                                    case None => InitialText(k)
                                    case Some(v) => Take(CStr(v), 50)
  {
    LastValueWins(Initial(), lines, k);
    match LastValue(Kept(lines), k)
    case None => BufferReads(InitialText(k));
    case Some(v) => BufferReads(Take(CStr(v), COPIED));
  }

  // ---- order independence ----

  /** The lines that address a field, in their order. */
  function History(lines: seq<string>, k: Key): seq<string> {
    if lines == [] then []
    else History(lines[..|lines| - 1], k) + (if Target(lines[|lines| - 1]) == Some(k) then [lines[|lines| - 1]] else [])
  }

  lemma HistorySnoc(lines: seq<string>, line: string, k: Key)
    ensures History(lines + [line], k)
            == if Target(line) == Some(k) then History(lines, k) + [line] else History(lines, k)
  {
    assert (lines + [line])[..|lines|] == lines;
    assert History(lines, k) + [] == History(lines, k);
  }

  lemma LastValueOfHistorySnoc(lines: seq<string>, line: string, k: Key)
    requires LastValue(lines, k) == LastValue(History(lines, k), k)
    ensures LastValue(lines + [line], k) == LastValue(History(lines + [line], k), k)
  {
    LastValueSnoc(lines, line, k);
    HistorySnoc(lines, line, k);
    LastValueSnoc(History(lines, k), line, k);
  }

  lemma {:induction false} LastValueOfHistory(lines: seq<string>, k: Key)
    ensures LastValue(lines, k) == LastValue(History(lines, k), k)
  {
    if lines != [] {
      LastValueOfHistory(lines[..|lines| - 1], k);
      LastValueOfHistorySnoc(lines[..|lines| - 1], lines[|lines| - 1], k);
      assert lines == lines[..|lines| - 1] + [lines[|lines| - 1]];
    }
  }

  lemma {:induction false} InHistory(lines: seq<string>, k: Key, line: string)
    ensures line in History(lines, k) <==> line in lines && Target(line) == Some(k)
  {
    if lines != [] {
      InHistory(lines[..|lines| - 1], k, line);
      assert lines == lines[..|lines| - 1] + [lines[|lines| - 1]];
    }
  }

  ghost predicate ErrorFree(lines: seq<string>) {
    forall line :: line in lines ==> !Fails(line)
  }

  lemma {:induction false} KeptAll(lines: seq<string>)
    ensures |Kept(lines)| == |lines| <==> ErrorFree(lines)
    ensures |Kept(lines)| == |lines| ==> Kept(lines) == lines
  {
    if lines != [] {
      KeptAll(lines[1..]);
      assert lines == [lines[0]] + lines[1..];
    }
  }

  ghost predicate SameHistories(a: seq<string>, b: seq<string>) {
    forall k: Key :: History(a, k) == History(b, k)
  }

  lemma SameErrors(a: seq<string>, b: seq<string>)
    requires SameHistories(a, b) && ErrorFree(a)
    ensures ErrorFree(b)
  {
    forall line | line in b ensures !Fails(line) {
      if Fails(line) {
        InHistory(b, Target(line).value, line);
        InHistory(a, Target(line).value, line);
      }
    }
  }

  /** Two files in which each field has the same history parse alike: both with an error or both
      without, and without one to the same fields.  In particular lines with different
      keywords may change places, and comments and empty lines may come and go. */
  lemma OrderIndependent(g: Globals, a: seq<string>, b: seq<string>)
    requires Shaped(g) && Clean(g) && SameHistories(a, b)
    ensures ParseLines(g, a).Done? <==> ParseLines(g, b).Done?
    ensures ParseLines(g, a).Done? ==> ParseLines(g, a).g == ParseLines(g, b).g
  {
    DoneIffErrorFree(g, a);
    DoneIffErrorFree(g, b);
    if ErrorFree(a) {
      SameErrors(a, b);
      SameFields(g, a, b);
    } else if ErrorFree(b) {
      SameErrors(b, a);
    }
  }

  lemma DoneIffErrorFree(g: Globals, lines: seq<string>)
    requires Shaped(g) && Clean(g)
    ensures ParseLines(g, lines).Done? <==> ErrorFree(lines)
  {
    LastValueWins(g, lines, Mode);
    KeptAll(lines);
  }

  lemma SameFields(g: Globals, a: seq<string>, b: seq<string>)
    requires Shaped(g) && Clean(g) && SameHistories(a, b) && ErrorFree(a) && ErrorFree(b)
    ensures ParseLines(g, a).g == ParseLines(g, b).g
  {
    KeptAll(a);
    KeptAll(b);
    forall k: Key ensures ParseLines(g, a).g[k] == ParseLines(g, b).g[k] {
      LastValueWins(g, a, k);
      LastValueWins(g, b, k);
      LastValueOfHistory(a, k);
      LastValueOfHistory(b, k);
    }
  }

  lemma {:induction false} HistoryAppend(a: seq<string>, b: seq<string>, k: Key)
    ensures History(a + b, k) == History(a, k) + History(b, k)
  {
    if b == [] {
      assert a + b == a;
    } else {
      assert (a + b)[..|a + b| - 1] == a + b[..|b| - 1];
      HistoryAppend(a, b[..|b| - 1], k);
    }
  }

  lemma HistoryOfOne(x: string, k: Key)
    ensures History([x], k) == if Target(x) == Some(k) then [x] else []
  {
    HistorySnoc([], x, k);
    assert [] + [x] == [x];
  }

  /** A field's history only depends on the histories of the parts of a file. */
  lemma ReplaceMiddle(a: seq<string>, m: seq<string>, m': seq<string>, b: seq<string>, k: Key)
    requires History(m, k) == History(m', k)
    ensures History(a + m + b, k) == History(a + m' + b, k)
  {
    HistoryAppend(a + m, b, k);
    HistoryAppend(a, m, k);
    HistoryAppend(a + m', b, k);
    HistoryAppend(a, m', k);
  }

  lemma PairHistory(x: string, y: string, k: Key)
    requires Target(x) != Target(y)
    ensures History([x] + [y], k) == History([y] + [x], k)
  {
    HistoryAppend([x], [y], k);
    HistoryAppend([y], [x], k);
    HistoryOfOne(x, k);
    HistoryOfOne(y, k);
  }

  /** Neighbouring lines for different fields may change places. */
  lemma SwapLines(g: Globals, a: seq<string>, x: string, y: string, b: seq<string>)
    requires Shaped(g) && Clean(g) && Target(x) != Target(y)
    ensures var xy, yx := a + ([x] + [y]) + b, a + ([y] + [x]) + b;
            && (ParseLines(g, xy).Done? <==> ParseLines(g, yx).Done?)
            && (ParseLines(g, xy).Done? ==> ParseLines(g, xy).g == ParseLines(g, yx).g)
  {
    forall k: Key ensures History(a + ([x] + [y]) + b, k) == History(a + ([y] + [x]) + b, k) {
      PairHistory(x, y, k);
      ReplaceMiddle(a, [x] + [y], [y] + [x], b, k);
    }
    OrderIndependent(g, a + ([x] + [y]) + b, a + ([y] + [x]) + b);
  }

  // ---- the loop sees a file piece by piece ----

  lemma {:induction false} StoppedStays(g: Globals, a: seq<string>, b: seq<string>)
    requires Shaped(g) && ParseLines(g, a).StoppedAt?
    ensures ParseLines(g, a + b) == ParseLines(g, a)
  {
    if b == [] {
      assert a + b == a;
    } else {
      assert (a + b)[..|a + b| - 1] == a + b[..|b| - 1];
      StoppedStays(g, a, b[..|b| - 1]);
    }
  }

  lemma ParseSnoc(g: Globals, a: seq<string>, line: string)
    requires Shaped(g) && ParseLines(g, a).Done?
    ensures ParseLines(g, a + [line])
            == if Fails(line) then StoppedAt(|a| + 1, ParseLines(g, a).g) else Done(Parsed(ParseLines(g, a).g, line))
  {
    assert (a + [line])[..|a|] == a;
  }

  lemma {:induction false} DoneKeeps(g: Globals, lines: seq<string>)
    requires Shaped(g) && ParseLines(g, lines).Done?
    ensures |Kept(lines)| == |lines|
  {
    if lines != [] {
      var before, line := lines[..|lines| - 1], lines[|lines| - 1];
      DoneKeeps(g, before);
      KeptSnoc(before, line);
      assert lines == before + [line];
    }
  }

  lemma {:induction false} KeptSplit(a: seq<string>, b: seq<string>)
    requires |Kept(a)| == |a|
    ensures Kept(a + b) == a + Kept(b)
  {
    if a == [] {
      assert a + b == b;
    } else {
      assert (a + b)[1..] == a[1..] + b;
      KeptSplit(a[1..], b);
    }
  }

  /** Lines on which the loop stays within defined C behaviour: it looks at those it keeps and at
      the first that fails, and at no others. */
  ghost predicate DefinedWhereRead(lines: seq<string>) {
    forall i :: 0 <= i < |lines| && i <= |Kept(lines)| ==> Defined(lines[i])
  }

  /** In the line loop: n pieces parsed, the rest of the file still to be read. */
  ghost predicate LoopAt(start: Globals, lines: seq<string>, n: nat, rest: string, now: Globals)
    requires Shaped(start)
  {
    n <= |lines| && Pieces(rest) == lines[n..] && ParseLines(start, lines[..n]) == Done(now)
  }

  /** The loop has parsed the lines of a and comes to the next one. */
  lemma LoopLine(start: Globals, a: seq<string>, line: string, b: seq<string>, now: Globals)
    requires Shaped(start) && ParseLines(start, a) == Done(now)
    ensures Shaped(now) && |a| <= |Kept(a + ([line] + b))|
    ensures Fails(line) ==> ParseLines(start, (a + [line]) + b) == StoppedAt(|a| + 1, now)
    ensures !Fails(line) ==> ParseLines(start, a + [line]) == Done(Parsed(now, line))
  {
    DoneKeeps(start, a);
    KeptSplit(a, [line] + b);
    ParseSnoc(start, a, line);
    if Fails(line) {
      StoppedStays(start, a + [line], b);
    }
  }

  lemma SplitLines(lines: seq<string>, n: nat)
    requires n < |lines|
    ensures lines[..n + 1] == lines[..n] + [lines[n]]
    ensures lines == lines[..n] + ([lines[n]] + lines[n + 1..]) == (lines[..n] + [lines[n]]) + lines[n + 1..]
  {
  }

  lemma DropNext(lines: seq<string>, n: nat)
    requires n < |lines|
    ensures lines[n..][0] == lines[n] && lines[n..][1..] == lines[n + 1..]
  {
  }

  lemma NextPiece(rest: string, pieces: seq<string>)
    requires Pieces(rest) == pieces && rest != []
    ensures pieces != [] && Chop(rest[..PieceLength(rest)]) == pieces[0]
    ensures Pieces(rest[PieceLength(rest)..]) == pieces[1..]
  {
    assert pieces == [Chop(rest[..PieceLength(rest)])] + Pieces(rest[PieceLength(rest)..]);
  }

  lemma LoopNext(start: Globals, lines: seq<string>, n: nat, rest: string, now: Globals)
    requires Shaped(start) && LoopAt(start, lines, n, rest, now) && rest != []
    ensures Shaped(now) && n < |lines| && n <= |Kept(lines)|
    ensures var line := Chop(rest[..PieceLength(rest)]);
            && line == lines[n]
            && (Fails(line) ==> ParseLines(start, lines) == StoppedAt(n + 1, now))
            && (!Fails(line) ==> LoopAt(start, lines, n + 1, rest[PieceLength(rest)..], Parsed(now, line)))
  {
    NextPiece(rest, lines[n..]);
    DropNext(lines, n);
    SplitLines(lines, n);
    LoopLine(start, lines[..n], lines[n], lines[n + 1..], now);
  }
}
