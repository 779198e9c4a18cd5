/** tools/telegram-bridge.py, _split_message: a text in pieces no longer than a limit, broken at line
    ends where that is possible. */
module MessageSplit {
  import opened Text

  // One piece; hard when it was cut inside a line, so that no newline goes before the next piece.
  datatype Piece = Piece(text: string, hard: bool)

  /** The size the loop keeps: every buffered line with its newline. */
  function Size(buffer: seq<string>): nat {
    if buffer == [] then 0 else Size(buffer[..|buffer| - 1]) + |buffer[|buffer| - 1]| + 1
  }

  function Pieces(lines: seq<string>, buffer: seq<string>, limit: nat): seq<Piece>
    requires limit > 0
    decreases |lines|, if lines == [] then 0 else |lines[0]|, |buffer|
  {
    if lines == [] then (if buffer == [] then [] else [Piece(Join(buffer), false)])
    else if |lines[0]| > limit then
      if buffer != [] then [Piece(Join(buffer), false)] + Pieces(lines, [], limit)
      else [Piece(lines[0][..limit], true)] + Pieces([lines[0][limit..]] + lines[1..], [], limit)
    else if buffer != [] && Size(buffer) + |lines[0]| + 1 > limit then
      [Piece(Join(buffer), false)] + Pieces(lines[1..], [lines[0]], limit)
    else Pieces(lines[1..], buffer + [lines[0]], limit)
  }

  function Split(text: string, limit: nat): seq<Piece>
    requires limit > 0
  {
    var t := TrimRight(text);
    if |t| <= limit then [Piece(t, false)] else Pieces(Lines(t), [], limit)
  }

  /** The pieces back together: nothing at a hard split, one newline at a line split. */
  function Rejoin(pieces: seq<Piece>): string {
    if pieces == [] then ""
    else if |pieces| == 1 then pieces[0].text
    else pieces[0].text + (if pieces[0].hard then "" else "\n") + Rejoin(pieces[1..])
  }

  lemma {:induction false} JoinConcat(a: seq<string>, b: seq<string>)
    requires a != [] && b != []
    ensures Join(a + b) == Join(a) + "\n" + Join(b)
  {
    if |a| == 1 {
      assert (a + b)[1..] == b;
    } else {
      assert (a + b)[1..] == a[1..] + b;
      JoinConcat(a[1..], b);
    }
  }

  lemma JoinHead(line: string, rest: seq<string>, k: nat)
    requires k <= |line|
    ensures Join([line] + rest) == line[..k] + Join([line[k..]] + rest)
  {
  }

  lemma {:induction false} PiecesRejoin(lines: seq<string>, buffer: seq<string>, limit: nat)
    requires limit > 0 && (lines != [] || buffer != [])
    ensures Pieces(lines, buffer, limit) != []
    ensures Rejoin(Pieces(lines, buffer, limit)) == Join(buffer + lines)
    decreases |lines|, if lines == [] then 0 else |lines[0]|, |buffer|
  {
    hide Pieces, Rejoin, Join, Size;
    if lines == [] {
      assert buffer + lines == buffer;
      NoLines(buffer, limit);
      RejoinOne(Piece(Join(buffer), false));
    } else {
      var line, rest := lines[0], lines[1..];
      assert lines == [line] + rest;
      if |line| > limit {
        LongLine(line, rest, buffer, limit);
        if buffer != [] {
          PiecesRejoin(lines, [], limit);
          assert [] + lines == lines;
          JoinConcat(buffer, lines);
          RejoinCons(Piece(Join(buffer), false), Pieces(lines, [], limit));
        } else {
          var shorter := [line[limit..]] + rest;
          PiecesRejoin(shorter, [], limit);
          assert [] + shorter == shorter && buffer + lines == lines;
          JoinHead(line, rest, limit);
          RejoinCons(Piece(line[..limit], true), Pieces(shorter, [], limit));
        }
      } else {
        ShortLine(line, rest, buffer, limit);
        if buffer != [] && Size(buffer) + |line| + 1 > limit {
          PiecesRejoin(rest, [line], limit);
          JoinConcat(buffer, lines);
          RejoinCons(Piece(Join(buffer), false), Pieces(rest, [line], limit));
        } else {
          PiecesRejoin(rest, buffer + [line], limit);
          assert buffer + [line] + rest == buffer + lines;
        }
      }
    }
  }

  lemma RejoinOne(p: Piece)
    ensures Rejoin([p]) == p.text
  {
  }

  lemma RejoinCons(p: Piece, ps: seq<Piece>)
    requires ps != []
    ensures Rejoin([p] + ps) == p.text + (if p.hard then "" else "\n") + Rejoin(ps)
  {
  }

  lemma {:induction false} JoinSize(buffer: seq<string>)
    requires buffer != []
    ensures Size(buffer) == |Join(buffer)| + 1
  {
    if |buffer| > 1 {
      var front, last := buffer[..|buffer| - 1], buffer[|buffer| - 1];
      JoinSize(front);
      assert buffer == front + [last];
      JoinConcat(front, [last]);
    }
  }

  /** A buffer the loop can hold: its lines joined fit in one piece. */
  predicate Fits(buffer: seq<string>, limit: nat) {
    |Join(buffer)| <= limit
  }

  lemma FitsMore(buffer: seq<string>, line: string, limit: nat)
    requires Fits(buffer, limit) && |line| <= limit
    requires buffer == [] || Size(buffer) + |line| + 1 <= limit
    ensures Fits(buffer + [line], limit)
  {
    if buffer == [] {
      assert buffer + [line] == [line];
    } else {
      JoinSize(buffer);
      JoinConcat(buffer, [line]);
    }
  }

  /** Within the limit, and exactly the limit when cut inside a line. */
  predicate Sized(p: Piece, limit: nat) {
    |p.text| <= limit && (p.hard ==> |p.text| == limit)
  }

  predicate AllSized(pieces: seq<Piece>, limit: nat) {
    forall i :: 0 <= i < |pieces| ==> Sized(pieces[i], limit)
  }

  lemma SizedCons(p: Piece, ps: seq<Piece>, limit: nat)
    requires Sized(p, limit) && AllSized(ps, limit)
    ensures AllSized([p] + ps, limit)
  {
  }

  lemma {:induction false} PiecesAreSized(lines: seq<string>, buffer: seq<string>, limit: nat)
    requires limit > 0 && Fits(buffer, limit)
    ensures AllSized(Pieces(lines, buffer, limit), limit)
    decreases |lines|, if lines == [] then 0 else |lines[0]|, |buffer|
  {
    if lines != [] {
      var line, rest := lines[0], lines[1..];
      if |line| > limit {
        if buffer != [] {
          PiecesAreSized(lines, [], limit);
          SizedCons(Piece(Join(buffer), false), Pieces(lines, [], limit), limit);
        } else {
          var shorter := [line[limit..]] + rest;
          PiecesAreSized(shorter, [], limit);
          SizedCons(Piece(line[..limit], true), Pieces(shorter, [], limit), limit);
        }
      } else if buffer != [] && Size(buffer) + |line| + 1 > limit {
        PiecesAreSized(rest, [line], limit);
        SizedCons(Piece(Join(buffer), false), Pieces(rest, [line], limit), limit);
      } else {
        FitsMore(buffer, line, limit);
        PiecesAreSized(rest, buffer + [line], limit);
      }
    }
  }

  // ---- no needless breaks ----

  /** A line break was needed: with the next line joined on, the piece would have reached the limit. */
  predicate Needed(p: Piece, rest: string, limit: nat) {
    !p.hard ==> |p.text| + 1 + |Lines(rest)[0]| >= limit
  }

  predicate AllNeeded(pieces: seq<Piece>, limit: nat) {
    forall i :: 0 <= i < |pieces| - 1 ==> Needed(pieces[i], Rejoin(pieces[i + 1..]), limit)
  }

  lemma NeededCons(p: Piece, ps: seq<Piece>, limit: nat)
    requires ps != [] && AllNeeded(ps, limit) && Needed(p, Rejoin(ps), limit)
    ensures AllNeeded([p] + ps, limit)
  {
    hide Needed, Rejoin;
    var all := [p] + ps;
    forall i | 0 <= i < |all| - 1 ensures Needed(all[i], Rejoin(all[i + 1..]), limit) {
      if i == 0 {
        assert all[1..] == ps;
      } else {
        assert all[i + 1..] == ps[i..];
        assert Needed(ps[i - 1], Rejoin(ps[i - 1 + 1..]), limit);
      }
    }
  }

  /** The first line of joined lines is the first of them. */
  lemma FirstLine(line: string, rest: seq<string>)
    requires '\n' !in line
    ensures Lines(Join([line] + rest))[0] == line
  {
    LinesOneLine(line);
    if rest == [] {
      assert [line] + rest == [line];
    } else {
      JoinConcat([line], rest);
      LinesConcat(line, Join(rest));
    }
  }

  lemma {:induction false} BreaksAreNeeded(lines: seq<string>, buffer: seq<string>, limit: nat)
    requires limit > 0
    requires forall l :: l in lines ==> '\n' !in l
    ensures AllNeeded(Pieces(lines, buffer, limit), limit)
    decreases |lines|, if lines == [] then 0 else |lines[0]|, |buffer|
  {
    if lines != [] {
      var line, rest := lines[0], lines[1..];
      assert lines == [line] + rest;
      assert forall l :: l in rest ==> l in lines;
      if |line| > limit {
        if buffer != [] {
          BreaksAreNeeded(lines, [], limit);
          PiecesRejoin(lines, [], limit);
          assert [] + lines == lines;
          FirstLine(line, rest);
          NeededCons(Piece(Join(buffer), false), Pieces(lines, [], limit), limit);
        } else {
          var shorter := [line[limit..]] + rest;
          forall l | l in shorter ensures '\n' !in l {
            assert line in lines && (l == line[limit..] || l in rest);
          }
          BreaksAreNeeded(shorter, [], limit);
          PiecesRejoin(shorter, [], limit);
          NeededCons(Piece(line[..limit], true), Pieces(shorter, [], limit), limit);
        }
      } else if buffer != [] && Size(buffer) + |line| + 1 > limit {
        JoinSize(buffer);
        BreaksAreNeeded(rest, [line], limit);
        PiecesRejoin(rest, [line], limit);
        FirstLine(line, rest);
        NeededCons(Piece(Join(buffer), false), Pieces(rest, [line], limit), limit);
      } else {
        BreaksAreNeeded(rest, buffer + [line], limit);
      }
    }
  }

  // ---- the results ----

  /** The pieces are the right-stripped text, none too long; a line is cut only when it is over-long,
      into full pieces, and lines are parted only where together they would reach the limit. */
  lemma SplitIsRight(text: string, limit: nat)
    requires limit > 0
    ensures var ps := Split(text, limit);
      && ps != [] && Rejoin(ps) == TrimRight(text)
      && AllSized(ps, limit) && AllNeeded(ps, limit)
  {
    var t := TrimRight(text);
    if |t| > limit {
      var lines := Lines(t);
      PiecesRejoin(lines, [], limit);
      assert [] + lines == lines;
      JoinLines(t);
      PiecesAreSized(lines, [], limit);
      LinesBare(t);
      BreaksAreNeeded(lines, [], limit);
    }
  }

  lemma {:induction false} LinesBare(s: string)
    ensures forall l :: l in Lines(s) ==> '\n' !in l
  {
    if s != "" {
      LinesBare(s[1..]);
      var rest := Lines(s[1..]);
      assert rest == [rest[0]] + rest[1..];
    }
  }

  // ---- empty pieces ----

  /** A blank line, then a line within one character of the limit. */
  predicate BlankThenLong(text: string, limit: nat) {
    var lines := Lines(text);
    lines[0] == "" && |lines| > 1 && |lines[1]| + 1 >= limit
  }

  predicate BlanksExactly(pieces: seq<Piece>, limit: nat) {
    forall i :: 0 <= i < |pieces| - 1 ==> (pieces[i].text == "" <==> BlankThenLong(Rejoin(pieces[i..]), limit))
  }

  lemma BlanksCons(p: Piece, ps: seq<Piece>, limit: nat)
    requires BlanksExactly(ps, limit) && (p.text == "" <==> BlankThenLong(Rejoin([p] + ps), limit))
    ensures BlanksExactly([p] + ps, limit)
  {
    hide BlankThenLong, Rejoin;
    var all := [p] + ps;
    forall i | 0 <= i < |all| - 1 ensures all[i].text == "" <==> BlankThenLong(Rejoin(all[i..]), limit) {
      if i == 0 {
        assert all[0..] == all;
      } else {
        assert all[i..] == ps[i - 1..];
      }
    }
  }

  /** A buffer the loop can hold: its second line did not overflow the first. */
  predicate Roomy(buffer: seq<string>, limit: nat) {
    |buffer| >= 2 ==> |buffer[0]| + |buffer[1]| + 2 <= limit
  }

  lemma RoomyMore(buffer: seq<string>, line: string, limit: nat)
    requires Roomy(buffer, limit) && (buffer == [] || Size(buffer) + |line| + 1 <= limit)
    ensures Roomy(buffer + [line], limit)
  {
    if |buffer| == 1 {
      assert buffer[..0] == [];
    }
  }

  lemma {:induction false} JoinedIsEmpty(buffer: seq<string>)
    requires buffer != []
    ensures Join(buffer) == "" <==> buffer == [""]
  {
  }

  /** The buffer, flushed for this line, makes an empty piece exactly when it is one blank line. */
  lemma FlushedBlank(buffer: seq<string>, line: string, rest: seq<string>, limit: nat)
    requires limit > 0 && buffer != [] && Roomy(buffer, limit)
    requires |line| > limit || Size(buffer) + |line| + 1 > limit
    requires forall l :: l in buffer + [line] + rest ==> '\n' !in l
    ensures Join(buffer) == "" <==> BlankThenLong(Join(buffer + [line] + rest), limit)
  {
    var all := buffer + [line] + rest;
    LinesOfJoin(all);
    JoinedIsEmpty(buffer);
    if |buffer| == 1 {
      assert buffer[..0] == [];
      assert all[1] == line;
    } else {
      assert all[0] == buffer[0] && all[1] == buffer[1];
    }
  }

  predicate Clean(lines: seq<string>) {
    forall l :: l in lines ==> '\n' !in l
  }

  lemma {:induction false} BlanksAreExact(lines: seq<string>, buffer: seq<string>, limit: nat)
    requires limit > 0 && Clean(lines) && Clean(buffer) && Roomy(buffer, limit)
    ensures BlanksExactly(Pieces(lines, buffer, limit), limit)
    decreases |lines|, if lines == [] then 0 else |lines[0]|, |buffer|
  {
    hide Pieces, Rejoin, Join, Size, Roomy, BlankThenLong, Lines;
    if lines == [] {
      NoLines(buffer, limit);
    } else {
      var line, rest := lines[0], lines[1..];
      assert lines == [line] + rest;
      CleanParts(line, rest);
      PiecesRejoin(lines, buffer, limit);
      if |line| > limit {
        LongLine(line, rest, buffer, limit);
        assert Roomy([], limit) by { RoomyNone(limit); }
        if buffer != [] {
          BlanksAreExact(lines, [], limit);
          assert buffer + [line] + rest == buffer + lines;
          FlushedBlank(buffer, line, rest, limit);
          BlanksCons(Piece(Join(buffer), false), Pieces(lines, [], limit), limit);
        } else {
          var shorter := [line[limit..]] + rest;
          CleanShorter(line, rest, limit);
          BlanksAreExact(shorter, [], limit);
          assert buffer + lines == lines;
          LongIsNotBlank(line, rest, limit);
          BlanksCons(Piece(line[..limit], true), Pieces(shorter, [], limit), limit);
        }
      } else {
        ShortLine(line, rest, buffer, limit);
        if buffer != [] && Size(buffer) + |line| + 1 > limit {
          assert Roomy([line], limit) by { RoomyOne(line, limit); }
          BlanksAreExact(rest, [line], limit);
          assert buffer + [line] + rest == buffer + lines;
          FlushedBlank(buffer, line, rest, limit);
          BlanksCons(Piece(Join(buffer), false), Pieces(rest, [line], limit), limit);
        } else {
          RoomyMore(buffer, line, limit);
          BlanksAreExact(rest, buffer + [line], limit);
        }
      }
    }
  }

  lemma RoomyNone(limit: nat)
    ensures Roomy([], limit)
  {
  }

  lemma RoomyOne(line: string, limit: nat)
    ensures Roomy([line], limit)
  {
  }

  lemma CleanParts(line: string, rest: seq<string>)
    requires Clean([line] + rest)
    ensures Clean([line]) && Clean(rest)
  {
    assert forall l :: l in rest ==> l in [line] + rest;
  }

  lemma CleanShorter(line: string, rest: seq<string>, k: nat)
    requires Clean([line]) && Clean(rest) && k <= |line|
    ensures Clean([line[k..]] + rest)
  {
    assert line in [line];
  }

  lemma LongIsNotBlank(line: string, rest: seq<string>, limit: nat)
    requires limit > 0 && |line| > limit && Clean([line] + rest)
    ensures !BlankThenLong(Join([line] + rest), limit)
  {
    LinesOfJoin([line] + rest);
  }

  lemma {:induction false} LastPiece(lines: seq<string>, buffer: seq<string>, limit: nat)
    requires limit > 0 && buffer + lines != [] && (buffer + lines)[|buffer + lines| - 1] != ""
    ensures var ps := Pieces(lines, buffer, limit); ps != [] && ps[|ps| - 1].text != ""
    decreases |lines|, if lines == [] then 0 else |lines[0]|, |buffer|
  {
    hide Pieces, Join, Size;
    if lines == [] {
      NoLines(buffer, limit);
      assert buffer + lines == buffer;
      JoinedIsEmpty(buffer);
    } else {
      var line, rest := lines[0], lines[1..];
      assert lines == [line] + rest;
      if |line| > limit {
        LongLine(line, rest, buffer, limit);
        LastPiece([line[limit..]] + rest, [], limit);
      } else {
        ShortLine(line, rest, buffer, limit);
        if buffer != [] && Size(buffer) + |line| + 1 > limit {
          LastPiece(rest, [line], limit);
        } else {
          LastPiece(rest, buffer + [line], limit);
        }
      }
    }
  }

  lemma {:induction false} LastLine(s: string)
    requires s != "" && s[|s| - 1] != '\n'
    ensures Lines(s)[|Lines(s)| - 1] != ""
  {
    if |s| > 1 {
      LastLine(s[1..]);
    } else {
      LinesOneLine(s);
    }
  }

  lemma {:induction false} TrimmedEnd(s: string)
    ensures var t := TrimRight(s); t == "" || !IsSpace(t[|t| - 1])
  {
    if s != "" && IsSpace(s[|s| - 1]) {
      TrimmedEnd(s[..|s| - 1]);
    }
  }

  /** When a chunk is empty, which the receiving side refuses. Before the last: exactly when what is left
      of the text starts with a blank line and then a line within one character of the limit. The last:
      exactly when the text is all white space. */
  lemma EmptyPieceExactly(text: string, limit: nat, i: nat)
    requires limit > 0 && i < |Split(text, limit)|
    ensures var ps := Split(text, limit);
      ps[i].text == "" <==>
        if i < |ps| - 1 then BlankThenLong(Rejoin(ps[i..]), limit) else TrimRight(text) == ""
  {
    hide TrimRight, Lines, Pieces, Rejoin, BlankThenLong;
    var t := TrimRight(text);
    if |t| > limit {
      LinesAreClean(t);
      RoomyNone(limit);
      BlanksAreExact(Lines(t), [], limit);
      TrimmedEnd(text);
      LastLine(t);
      assert [] + Lines(t) == Lines(t);
      LastPiece(Lines(t), [], limit);
    }
  }

  lemma LinesAreClean(s: string)
    ensures Clean(Lines(s))
  {
    LinesBare(s);
  }

  function Run(c: char, n: nat): string {
    seq(n, _ => c)
  }

  /** Two lines one character short of the limit with a blank line between. */
  function Report(limit: nat): string
    requires limit > 0
  {
    Run('a', limit - 1) + "\n" + "" + "\n" + Run('b', limit - 1)
  }

  /** It does occur, at every limit, on a text that stripping leaves alone. */
  lemma EmptyPieceOccurs(limit: nat)
    requires limit >= 2
    ensures Strip(Report(limit)) == Report(limit)
    ensures Texts(Split(Report(limit), limit)) == [Run('a', limit - 1), "", Run('b', limit - 1)]
  {
    var a, b, t := Run('a', limit - 1), Run('b', limit - 1), Report(limit);
    assert t[0] == 'a' && t[|t| - 1] == 'b';
    StripTight(t);
    assert '\n' !in a && '\n' !in b;
    LinesOneLine(a);
    LinesOneLine("");
    LinesOneLine(b);
    LinesConcat(a, "");
    LinesConcat(a + "\n" + "", b);
    assert Lines(t) == [a, "", b];
    ReportPieces(a, b, limit);
  }

  lemma ReportPieces(a: string, b: string, limit: nat)
    requires limit >= 2 && |a| == limit - 1 && |b| == limit - 1
    ensures Pieces([a, "", b], [], limit) == [Piece(a, false), Piece("", false), Piece(b, false)]
  {
    hide Pieces;
    assert [a, "", b] == [a] + ["", b] && ["", b] == [""] + [b] && [b] == [b] + [];
    NoSize();
    SizeMore([], a);
    SizeMore([], "");
    assert [] + [a] == [a] && [] + [""] == [""] && [] + [b] == [b];
    ShortLine(a, ["", b], [], limit);
    ShortLine("", [b], [a], limit);
    ShortLine(b, [], [""], limit);
    NoLines([b], limit);
  }

  function Texts(pieces: seq<Piece>): (r: seq<string>)
    ensures |r| == |pieces|
  {
    seq(|pieces|, i requires 0 <= i < |pieces| => pieces[i].text)
  }

  lemma TextsConcat(a: seq<Piece>, b: seq<Piece>)
    ensures Texts(a + b) == Texts(a) + Texts(b)
  {
  }

  lemma LongLine(line: string, rest: seq<string>, buffer: seq<string>, limit: nat)
    requires limit > 0 && |line| > limit
    ensures Pieces([line] + rest, [], limit) == [Piece(line[..limit], true)] + Pieces([line[limit..]] + rest, [], limit)
    ensures buffer != [] ==>
      Pieces([line] + rest, buffer, limit) == [Piece(Join(buffer), false)] + Pieces([line] + rest, [], limit)
  {
  }

  lemma ShortLine(line: string, rest: seq<string>, buffer: seq<string>, limit: nat)
    requires limit > 0 && |line| <= limit
    ensures Pieces([line] + rest, buffer, limit) ==
      if buffer != [] && Size(buffer) + |line| + 1 > limit
      then [Piece(Join(buffer), false)] + Pieces(rest, [line], limit)
      else Pieces(rest, buffer + [line], limit)
  {
  }

  lemma SizeMore(buffer: seq<string>, line: string)
    ensures Size(buffer + [line]) == Size(buffer) + |line| + 1
  {
  }

  lemma TextsMore(done: seq<Piece>, p: Piece)
    ensures Texts(done + [p]) == Texts(done) + [p.text]
  {
  }

  /** The inner loop: what is left of the line once it fits, and the pieces cut on the way. */
  method CutLine(whole: string, buffer0: seq<string>, size0: nat, limit: nat, ghost rest: seq<string>)
    returns (chunks: seq<string>, line: string, buffer: seq<string>, size: nat, ghost done: seq<Piece>)
    requires limit > 0 && size0 == Size(buffer0)
    ensures size == Size(buffer)
    ensures |line| <= limit && chunks == Texts(done)
    ensures Pieces([whole] + rest, buffer0, limit) == done + Pieces([line] + rest, buffer, limit)
    ensures |whole| <= limit ==> line == whole && buffer == buffer0
    ensures |whole| > limit ==> buffer == []
  {
    hide Pieces, Size;
    NoSize();
    chunks, line, buffer, size, done := [], whole, buffer0, size0, [];
    assert done + Pieces([line] + rest, buffer, limit) == Pieces([line] + rest, buffer, limit);
    while |line| > limit
      invariant size == Size(buffer) && chunks == Texts(done)
      invariant Pieces([whole] + rest, buffer0, limit) == done + Pieces([line] + rest, buffer, limit)
      invariant |whole| <= limit ==> line == whole && buffer == buffer0
      invariant |whole| > limit ==> buffer == [] || line == whole
      decreases |line|
    {
      LongLine(line, rest, buffer, limit);
      if buffer != [] {
        TextsMore(done, Piece(Join(buffer), false));
        chunks, done := chunks + [Join(buffer)], done + [Piece(Join(buffer), false)];
        buffer, size := [], 0;
      }
      TextsMore(done, Piece(line[..limit], true));
      chunks, done := chunks + [line[..limit]], done + [Piece(line[..limit], true)];
      line := line[limit..];
    }
  }

  /** The generator of the source, its yields collected. */
  method SplitMessage(text: string, limit: nat) returns (chunks: seq<string>)
    requires limit > 0
    ensures chunks == Texts(Split(text, limit))
    ensures forall i :: 0 <= i < |chunks| ==> |chunks[i]| <= limit
  {
    hide Pieces, TrimRight, Size, Texts, Lines, Join;
    ChunksFit(text, limit);
    var stripped := TrimRight(text);
    if |stripped| <= limit {
      OneText(stripped);
      return [stripped];
    }
    var lines := Lines(stripped);
    ghost var all := Pieces(lines, [], limit);
    var buffer, size, k := [], 0, 0;
    ghost var done: seq<Piece> := [];
    chunks := [];
    assert lines[0..] == lines;
    NoSize();
    while k < |lines|
      invariant 0 <= k <= |lines|
      invariant size == Size(buffer)
      invariant chunks == Texts(done) && all == done + Pieces(lines[k..], buffer, limit)
    {
      ghost var rest := lines[k + 1..];
      assert lines[k..] == [lines[k]] + rest;
      var cut, line;
      ghost var pieces;
      cut, line, buffer, size, pieces := CutLine(lines[k], buffer, size, limit, rest);
      TextsConcat(done, pieces);
      chunks, done := chunks + cut, done + pieces;
      ShortLine(line, rest, buffer, limit);
      if size + |line| + 1 > limit && buffer != [] {
        TextsMore(done, Piece(Join(buffer), false));
        chunks, done := chunks + [Join(buffer)], done + [Piece(Join(buffer), false)];
        buffer, size := [], 0;
      }
      SizeMore(buffer, line);
      assert buffer == [] ==> buffer + [line] == [line];
      buffer := buffer + [line];
      size := size + |line| + 1;
      k := k + 1;
    }
    assert lines[k..] == [];
    NoLines(buffer, limit);
    if buffer != [] {
      TextsMore(done, Piece(Join(buffer), false));
      chunks, done := chunks + [Join(buffer)], done + [Piece(Join(buffer), false)];
    }
    assert done == all;
  }

  lemma ChunksFit(text: string, limit: nat)
    requires limit > 0
    ensures forall i :: 0 <= i < |Texts(Split(text, limit))| ==> |Texts(Split(text, limit))[i]| <= limit
  {
    SplitIsRight(text, limit);
    var all := Split(text, limit);
    assert forall i :: 0 <= i < |all| ==> Sized(all[i], limit);
  }

  lemma OneText(text: string)
    ensures Texts([Piece(text, false)]) == [text]
  {
  }

  lemma NoSize()
    ensures Size([]) == 0 && Texts([]) == []
  {
  }

  lemma NoLines(buffer: seq<string>, limit: nat)
    requires limit > 0
    ensures Pieces([], buffer, limit) == if buffer == [] then [] else [Piece(Join(buffer), false)]
  {
  }
}
