/**
 The file as fgets hands it out: pieces of at most MAX_LINE - 1 characters, each ending at
 its newline if it has one.
 */
module ConfigFile {
  import opened CStrings

  const MAX_LINE: nat := 4096

  /** What one fgets takes from the rest of a file. */
  function PieceLength(file: string): (n: nat)
    ensures n <= |file| && n < MAX_LINE
    ensures file != [] ==> n > 0
  {
    PieceUpTo(file, MAX_LINE - 1)
  }

  function PieceUpTo(file: string, room: nat): (n: nat)
    ensures n <= |file| && n <= room
    ensures file != [] && room > 0 ==> n > 0
    ensures forall i :: 0 <= i < n - 1 ==> file[i] != '\n'
    ensures n < |file| && n < room ==> n > 0 && file[n - 1] == '\n'
  {
    if file == [] || room == 0 then 0
    else if file[0] == '\n' then 1
    else 1 + PieceUpTo(file[1..], room - 1)
  }

  /** The piece as a C string, its newline removed. */
  function Chop(piece: string): string {
    if piece != [] && piece[|piece| - 1] == '\n' then CStr(piece[..|piece| - 1]) else CStr(piece)
  }

  /** The lines the loop sees. */
  function Pieces(file: string): seq<string>
    decreases |file|
  {
    if file == [] then []
    else [Chop(file[..PieceLength(file)])] + Pieces(file[PieceLength(file)..])
  }

  /** The lines of a file in the ordinary sense: what stands between newlines; a file that ends in
      a newline does not have an empty last line. */
  function LineLength(file: string): (n: nat)
    ensures n <= |file|
    ensures forall i :: 0 <= i < n ==> file[i] != '\n'
    ensures n < |file| ==> file[n] == '\n'
  {
    if file == [] || file[0] == '\n' then 0 else 1 + LineLength(file[1..])
  }

  function Lines(file: string): seq<string>
    decreases |file|
  {
    if file == [] then []
    else
      var n := LineLength(file);
      [file[..n]] + (if n < |file| then Lines(file[n + 1..]) else [])
  }

  /** Every line has at most 4095 characters, its newline included if it has one. */
  predicate LinesFit(file: string)
    decreases |file|
  {
    var n := LineLength(file);
    if n < |file| then n + 1 <= 4095 && LinesFit(file[n + 1..]) else n <= 4095
  }

  lemma {:induction false} PieceOfLine(file: string, room: nat)
    ensures PieceUpTo(file, room)
            == if LineLength(file) >= room then room
               else if LineLength(file) < |file| then LineLength(file) + 1 else |file|
  {
    if file != [] && room > 0 && file[0] != '\n' {
      PieceOfLine(file[1..], room - 1);
    }
  }

  lemma {:induction false} LineLengthDrop(file: string, k: nat)
    requires k <= LineLength(file)
    ensures LineLength(file[k..]) == LineLength(file) - k
  {
    if k > 0 {
      LineLengthDrop(file[1..], k - 1);
      assert file[k..] == file[1..][k - 1..];
    } else {
      assert file[0..] == file;
    }
  }

  lemma PrefixHasNoNul(file: string, n: nat)
    requires NUL !in file && n <= |file|
    ensures CStr(file[..n]) == file[..n] && NUL !in file[n..]
  {
    CStrWhole(file[..n]);
  }

  /** A line that fits is handed out whole. */
  lemma WholeLine(file: string)
    requires file != [] && NUL !in file
    requires var n := LineLength(file); if n < |file| then n + 1 < MAX_LINE else n < MAX_LINE
    ensures var n := LineLength(file);
            Pieces(file) == [file[..n]] + (if n < |file| then Pieces(file[n + 1..]) else [])
  {
    PieceOfLine(file, MAX_LINE - 1);
    if LineLength(file) < |file| {
      FirstPiece(file, LineLength(file));
    } else {
      WholePrefix(file);
      OnlyPiece(file);
    }
  }

  lemma WholePrefix(file: string)
    requires LineLength(file) == |file|
    ensures '\n' !in file && file[..|file|] == file
  {
  }

  lemma FirstPiece(file: string, n: nat)
    requires n < |file| && file[n] == '\n' && NUL !in file && PieceLength(file) == n + 1
    ensures Pieces(file) == [file[..n]] + Pieces(file[n + 1..])
  {
    ChopPiece(file, n);
  }

  lemma ChopPiece(file: string, n: nat)
    requires n < |file| && file[n] == '\n' && NUL !in file
    ensures Chop(file[..n + 1]) == file[..n]
  {
    PrefixHasNoNul(file, n);
    SplitAt(file, n);
    ChopNewline(file[..n]);
  }

  lemma SplitAt(s: string, n: nat)
    requires n < |s|
    ensures s[..n + 1] == s[..n] + [s[n]]
  {
  }

  lemma OnlyPiece(file: string)
    requires file != [] && '\n' !in file && NUL !in file && PieceLength(file) == |file|
    ensures Pieces(file) == [file]
  {
    assert file[..|file|] == file && file[|file|..] == [];
    assert Chop(file) == file by { CStrWhole(file); }
  }

  lemma ChopNewline(t: string)
    requires CStr(t) == t
    ensures Chop(t + ['\n']) == t
  {
    assert (t + ['\n'])[..|t|] == t;
  }

  /** Of a line that does not fit, the loop sees a front part first, with the rest as a line of its own. */
  lemma BrokenLine(file: string)
    requires NUL !in file && LineLength(file) >= 4095
    ensures Pieces(file) == [file[..4095]] + Pieces(file[4095..])
    ensures |Lines(file[4095..])| == if LineLength(file) == 4095 == |file| then 0 else |Lines(file)|
  {
    PieceOfLine(file, MAX_LINE - 1);
    BrokenPiece(file, MAX_LINE - 1);
    RestOfLine(file, MAX_LINE - 1);
  }

  lemma BrokenPiece(file: string, k: nat)
    requires NUL !in file && 0 < k <= LineLength(file) && PieceLength(file) == k
    ensures Pieces(file) == [file[..k]] + Pieces(file[k..])
  {
    PrefixHasNoNul(file, k);
    assert file[..k][k - 1] == file[k - 1];
  }

  lemma DropDrop(s: string, k: nat, m: nat)
    requires k + m <= |s|
    ensures s[k..][m..] == s[k + m..]
  {
  }

  lemma LineCount(file: string)
    requires file != []
    ensures var n := LineLength(file);
            |Lines(file)| == 1 + if n < |file| then |Lines(file[n + 1..])| else 0
  {
  }

  lemma DropOne(file: string)
    requires LineLength(file) > 0 && file[1..] != []
    ensures |Lines(file[1..])| == |Lines(file)|
  {
    LineCount(file);
    LineCount(file[1..]);
    if LineLength(file) < |file| {
      DropDrop(file, 1, LineLength(file));
    }
  }

  lemma {:induction false} RestOfLine(file: string, k: nat)
    requires 0 < k <= LineLength(file)
    ensures |Lines(file[k..])| == if LineLength(file) == k == |file| then 0 else |Lines(file)|
  {
    if k == 1 {
      if file[1..] != [] {
        DropOne(file);
      }
    } else {
      DropOne(file);
      RestOfLine(file[1..], k - 1);
      DropDrop(file, 1, k - 1);
    }
  }

  /** Breaking lines only ever adds lines. */
  lemma {:induction false} NoFewerPieces(file: string)
    requires NUL !in file
    ensures |Pieces(file)| >= |Lines(file)|
    decreases |file|
  {
    if file != [] {
      var n := LineLength(file);
      if n < MAX_LINE - 1 {
        WholeLine(file);
        if n < |file| { NoFewerPieces(file[n + 1..]); }
      } else {
        BrokenLine(file);
        NoFewerPieces(file[MAX_LINE - 1..]);
      }
    }
  }

  lemma LastLine(file: string)
    requires file != [] && NUL !in file && LineLength(file) == |file| <= 4095
    ensures Pieces(file) == Lines(file) && LinesFit(file)
  {
    WholeLine(file);
  }

  lemma LinesNext(file: string, n: nat)
    requires LineLength(file) == n < |file|
    ensures Lines(file) == [file[..n]] + Lines(file[n + 1..])
    ensures LinesFit(file) <==> n + 1 <= 4095 && LinesFit(file[n + 1..])
  {
  }

  lemma PiecesNext(file: string, n: nat)
    requires NUL !in file && LineLength(file) == n < |file| && n + 1 <= 4095
    ensures Pieces(file) == [file[..n]] + Pieces(file[n + 1..])
  {
    WholeLine(file);
  }

  /** In a text file the loop sees exactly its lines if and only if every line fits the buffer. */
  lemma {:induction false} PiecesAreLines(file: string)
    requires NUL !in file
    ensures Pieces(file) == Lines(file) <==> LinesFit(file)
    decreases |file|
  {
    if file != [] {
      var n := LineLength(file);
      if n < |file| && n + 1 <= 4095 {
        PiecesNext(file, n);
        LinesNext(file, n);
        PiecesAreLines(file[n + 1..]);
        SameTail(file[..n], Pieces(file[n + 1..]), Lines(file[n + 1..]));
      } else if n == |file| <= 4095 {
        LastLine(file);
      } else {
        TooLong(file);
      }
    }
  }

  lemma SameTail(x: string, a: seq<string>, b: seq<string>)
    ensures [x] + a == [x] + b <==> a == b
  {
    assert ([x] + a)[1..] == a && ([x] + b)[1..] == b;
  }

  lemma TooLong(file: string)
    requires NUL !in file && LineLength(file) >= MAX_LINE - 1
    requires LineLength(file) < |file| || LineLength(file) > MAX_LINE - 1
    ensures Pieces(file) != Lines(file) && !LinesFit(file)
  {
    BrokenLine(file);
    PrefixHasNoNul(file, MAX_LINE - 1);
    NoFewerPieces(file[MAX_LINE - 1..]);
  }
}
