/**
  The FEN record as text: its six space-separated fields (piece placement,
  active colour, castling availability, en passant target, halfmove clock,
  fullmove number), as laid out in section 16.1 of the PGN Standard. The
  editor builds a record from its own placement, colour and castling
  letters and always writes the last three fields as "- 0 1".
 */
module FenText {

  /** JavaScript's `text.split(sep)` for a one-character separator. */
  function Split(s: string, sep: char): (parts: seq<string>)
    ensures |parts| >= 1
    ensures forall i :: 0 <= i < |parts| ==> sep !in parts[i]
  {
    if s == [] then [""]
    else
      var rest := Split(s[1..], sep);
      if s[0] == sep then [""] + rest
      else [[s[0]] + rest[0]] + rest[1..]
  }

  /** JavaScript's `parts.join(sep)`. */
  function Join(parts: seq<string>, sep: char): string {
    if |parts| == 0 then ""
    else if |parts| == 1 then parts[0]
    else parts[0] + [sep] + Join(parts[1..], sep)
  }

  /** Joining the pieces of a split gives the text back. */
  lemma {:induction false} JoinSplit(s: string, sep: char)
    ensures Join(Split(s, sep), sep) == s
  {
    if s != [] {
      JoinSplit(s[1..], sep);
      var rest := Split(s[1..], sep);
      if s[0] == sep {
        assert Split(s, sep) == [""] + rest;
        assert Join([""] + rest, sep) == "" + [sep] + Join(rest, sep);
        assert s == [s[0]] + s[1..];
      } else if |rest| == 1 {
        assert Split(s, sep) == [[s[0]] + rest[0]];
        assert s == [s[0]] + s[1..];
      } else {
        var parts := Split(s, sep);
        assert parts == [[s[0]] + rest[0]] + rest[1..];
        assert parts[1..] == rest[1..];
        assert Join(rest, sep) == rest[0] + [sep] + Join(rest[1..], sep);
        assert s == [s[0]] + s[1..];
      }
    }
  }

  /** Text without the separator splits into itself alone. */
  lemma {:induction false} SplitWithoutSeparator(a: string, sep: char)
    requires sep !in a
    ensures Split(a, sep) == [a]
  {
    if a != [] {
      SplitWithoutSeparator(a[1..], sep);
      assert a == [a[0]] + a[1..];
    }
  }

  /** A separator-free head splits off as the first piece. */
  lemma {:induction false} SplitAfterSeparator(a: string, sep: char, t: string)
    requires sep !in a
    ensures Split(a + [sep] + t, sep) == [a] + Split(t, sep)
  {
    if a == [] {
      assert [] + [sep] + t == [sep] + t;
      assert ([sep] + t)[1..] == t;
    } else {
      SplitAfterSeparator(a[1..], sep, t);
      var s := a + [sep] + t;
      assert s[0] == a[0] && s[1..] == a[1..] + [sep] + t;
      assert a == [a[0]] + a[1..];
    }
  }

  /** Splitting a join of separator-free pieces gives the pieces back. */
  lemma {:induction false} SplitJoin(parts: seq<string>, sep: char)
    requires |parts| >= 1
    requires forall i :: 0 <= i < |parts| ==> sep !in parts[i]
    ensures Split(Join(parts, sep), sep) == parts
  {
    if |parts| == 1 {
      SplitWithoutSeparator(parts[0], sep);
    } else {
      SplitJoin(parts[1..], sep);
      SplitAfterSeparator(parts[0], sep, Join(parts[1..], sep));
      assert parts == [parts[0]] + parts[1..];
    }
  }

  /** The castling field: the letters, or "-" when there are none. */
  function CastlingField(letters: string): string {
    if letters == "" then "-" else letters
  }

  /**
    The record the editor assembles: placement, a space, the colour, a
    space, the castling field, then " - 0 1".
   */
  function Assemble(placement: string, color: string, castling: string): string {
    placement + " " + color + " " + CastlingField(castling) + " - 0 1"
  }

  /** The six FEN fields of an assembled record. */
  function AssembledFields(placement: string, color: string, castling: string): seq<string> {
    [placement, color, CastlingField(castling), "-", "0", "1"]
  }

  /** An assembled record is its six fields joined by single spaces. */
  lemma AssembleIsSixFields(placement: string, color: string, castling: string)
    ensures Assemble(placement, color, castling) == Join(AssembledFields(placement, color, castling), ' ')
  {
    var f := AssembledFields(placement, color, castling);
    var tail := Join(f[2..], ' ');
    assert Join(f[5..], ' ') == "1" by { assert f[5..] == ["1"]; }
    assert Join(f[4..], ' ') == "0 1" by { assert f[4..][1..] == f[5..]; }
    assert Join(f[3..], ' ') == "- 0 1" by { assert f[3..][1..] == f[4..]; }
    assert tail == CastlingField(castling) + " - 0 1" by { assert f[2..][1..] == f[3..]; }
    assert Join(f[1..], ' ') == color + " " + tail by { assert f[1..][1..] == f[2..]; }
  }

  /**
    Splitting an assembled record at spaces gives back its six fields,
    provided none of the three variable parts contains a space.
   */
  lemma FieldsRoundTrip(placement: string, color: string, castling: string)
    requires ' ' !in placement && ' ' !in color && ' ' !in castling
    ensures Split(Assemble(placement, color, castling), ' ') == AssembledFields(placement, color, castling)
  {
    AssembleIsSixFields(placement, color, castling);
    SplitJoin(AssembledFields(placement, color, castling), ' ');
  }

  /** "-" and the empty letter list give the same record. */
  lemma DashIsNoCastling(placement: string, color: string)
    ensures Assemble(placement, color, "-") == Assemble(placement, color, "")
  {
  }

  /** JavaScript's `text.indexOf(sub) !== -1`: `sub` occurs somewhere in `text`. */
  predicate Contains(text: string, sub: string) {
    exists i | 0 <= i <= |text| - |sub| :: OccursAt(text, sub, i)
  }

  /** `sub` starts at index `i` of `text`. */
  predicate OccursAt(text: string, sub: string, i: int) {
    0 <= i <= |text| - |sub| && text[i..i + |sub|] == sub
  }

  /** For a one-letter `sub`, occurring in the text is membership. */
  lemma ContainsLetter(text: string, c: char)
    ensures Contains(text, [c]) <==> c in text
  {
    if c in text {
      var i :| 0 <= i < |text| && text[i] == c;
      assert OccursAt(text, [c], i);
    }
    if Contains(text, [c]) {
      var i :| 0 <= i <= |text| - 1 && OccursAt(text, [c], i);
      assert text[i..i + 1][0] == text[i];
    }
  }
}
