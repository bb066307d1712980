/**
  Castling availability (the third FEN field, section 16.1.3.3 of the PGN
  Standard) and the editor's rule for pruning it from the board: a right
  is lost once its king or rook is not on its home square.

  Two revisions of the editor prune differently:
  - `Prune` removes EVERY occurrence of each letter whose squares are
    wrong (a sequence of `filter`s over a six-row table);
  - `PruneFirst` removes only the FIRST occurrence of each such letter
    (one `indexOf` and one `splice` per letter).
  They agree on lists without repeated letters.
 */
module Castling {
  import opened Wrappers
  import opened Position

  /** One row of the table: a home square, the piece it must hold, and the castling letters lost when it does not. */
  datatype Rule = Rule(square: Square, piece: string, letters: string)

  /** The six home squares, in the order the editor visits them. */
  const Rules: seq<Rule> := [
    Rule("e1", "wk", "KQ"),
    Rule("h1", "wr", "K"),
    Rule("a1", "wr", "Q"),
    Rule("e8", "bk", "kq"),
    Rule("h8", "br", "k"),
    Rule("a8", "br", "q")
  ]

  /** The four castling letters in FEN order. */
  const AllLetters: string := "KQkq"

  /** `square` holds `piece`. */
  predicate Holds(board: Board, square: Square, piece: string) {
    PieceAt(board, square) == Some(piece)
  }

  function LetterSet(s: string): set<char> {
    set c | c in s
  }

  /** The letters lost through the first `n` rows of the table whose square does not hold its piece. */
  function BrokenUpTo(board: Board, n: nat): set<char>
    requires n <= |Rules|
  {
    if n == 0 then {}
    else BrokenUpTo(board, n - 1) + (if Holds(board, Rules[n - 1].square, Rules[n - 1].piece) then {} else LetterSet(Rules[n - 1].letters))
  }

  /** The letters `letters` when `square` does not hold `piece`, otherwise none. */
  function Lost(board: Board, square: Square, piece: string, letters: set<char>): set<char> {
    if Holds(board, square, piece) then {} else letters
  }

  /** The letters lost through the whole table, row by row. */
  function BrokenLetters(board: Board): set<char> {
    Lost(board, "e1", "wk", {'K', 'Q'}) + Lost(board, "h1", "wr", {'K'}) + Lost(board, "a1", "wr", {'Q'}) +
    Lost(board, "e8", "bk", {'k', 'q'}) + Lost(board, "h8", "br", {'k'}) + Lost(board, "a8", "br", {'q'})
  }

  /** Castling letter `c` is allowed when every home square it depends on holds its piece. */
  predicate Allowed(board: Board, c: char) {
    c !in BrokenLetters(board)
  }

  /** Walking the whole table loses exactly `BrokenLetters`. */
  lemma TableLetters(board: Board)
    ensures BrokenUpTo(board, |Rules|) == BrokenLetters(board)
  {
    assert LetterSet("KQ") == {'K', 'Q'};
    assert LetterSet("K") == {'K'};
    assert LetterSet("Q") == {'Q'};
    assert LetterSet("kq") == {'k', 'q'};
    assert LetterSet("k") == {'k'};
    assert LetterSet("q") == {'q'};
    assert Rules[0] == Rule("e1", "wk", "KQ");
    assert BrokenUpTo(board, 1) == Lost(board, "e1", "wk", {'K', 'Q'});
    assert BrokenUpTo(board, 2) == BrokenUpTo(board, 1) + Lost(board, "h1", "wr", {'K'});
    assert BrokenUpTo(board, 3) == BrokenUpTo(board, 2) + Lost(board, "a1", "wr", {'Q'});
    assert BrokenUpTo(board, 4) == BrokenUpTo(board, 3) + Lost(board, "e8", "bk", {'k', 'q'});
    assert BrokenUpTo(board, 5) == BrokenUpTo(board, 4) + Lost(board, "h8", "br", {'k'});
  }

  /**
    The table spelled out as the four rights: white king side needs the
    white king on e1 and a white rook on h1, and so on. No other character
    is ever disallowed.
   */
  lemma AllowedByTable(board: Board)
    ensures Allowed(board, 'K') <==> PieceAt(board, "e1") == Some("wk") && PieceAt(board, "h1") == Some("wr")
    ensures Allowed(board, 'Q') <==> PieceAt(board, "e1") == Some("wk") && PieceAt(board, "a1") == Some("wr")
    ensures Allowed(board, 'k') <==> PieceAt(board, "e8") == Some("bk") && PieceAt(board, "h8") == Some("br")
    ensures Allowed(board, 'q') <==> PieceAt(board, "e8") == Some("bk") && PieceAt(board, "a8") == Some("br")
    ensures BrokenLetters(board) <= {'K', 'Q', 'k', 'q'}
  {
  }

  /** A row whose square is wrong contributes all of its letters. */
  lemma {:induction false} BrokenRuleLetters(board: Board, n: nat, i: nat)
    requires i < n <= |Rules| && !Holds(board, Rules[i].square, Rules[i].piece)
    ensures LetterSet(Rules[i].letters) <= BrokenUpTo(board, n)
  {
    if i < n - 1 {
      BrokenRuleLetters(board, n - 1, i);
    }
  }

  // ---------------------------------------------------------------------------
  // Filtering letters out of a castling list

  /** The list without any letter of `bad`, in the original order (JavaScript's `filter`). */
  function Without(s: string, bad: set<char>): string {
    if s == [] then []
    else (if s[0] in bad then [] else [s[0]]) + Without(s[1..], bad)
  }

  /** A letter survives filtering exactly when it occurs and is not in `bad`. */
  lemma {:induction false} WithoutMember(s: string, bad: set<char>, x: char)
    ensures x in Without(s, bad) <==> x in s && x !in bad
  {
    if s != [] {
      WithoutMember(s[1..], bad, x);
      assert s == [s[0]] + s[1..];
    }
  }

  /** Filtering keeps every letter outside `bad` with its multiplicity and drops the others. */
  lemma {:induction false} WithoutCount(s: string, bad: set<char>, x: char)
    ensures multiset(Without(s, bad))[x] == if x in bad then 0 else multiset(s)[x]
  {
    if s != [] {
      WithoutCount(s[1..], bad, x);
      assert s == [s[0]] + s[1..];
    }
  }

  /** Filtering twice is filtering once by both sets. */
  lemma {:induction false} WithoutWithout(s: string, a: set<char>, b: set<char>)
    ensures Without(Without(s, a), b) == Without(s, a + b)
  {
    if s != [] {
      WithoutWithout(s[1..], a, b);
      var head := if s[0] in a then [] else [s[0]];
      assert Without(s, a) == head + Without(s[1..], a);
      if s[0] !in a {
        assert (head + Without(s[1..], a))[0] == s[0];
        assert (head + Without(s[1..], a))[1..] == Without(s[1..], a);
      } else {
        assert head + Without(s[1..], a) == Without(s[1..], a);
      }
    }
  }

  /** Filtering depends on `bad` only through the letters that occur in the list. */
  lemma {:induction false} WithoutAgree(s: string, a: set<char>, b: set<char>)
    requires forall x :: x in s ==> (x in a <==> x in b)
    ensures Without(s, a) == Without(s, b)
  {
    if s != [] {
      WithoutAgree(s[1..], a, b);
    }
  }

  // ---------------------------------------------------------------------------
  // Subsequences and duplicates

  /** `a` is `b` with some elements deleted, the rest in the same order. */
  ghost predicate IsSubsequence(a: string, b: string)
    decreases |b|
  {
    if a == [] then true
    else if b == [] then false
    else (a[0] == b[0] && IsSubsequence(a[1..], b[1..])) || IsSubsequence(a, b[1..])
  }

  ghost predicate NoDuplicates(s: string) {
    forall c :: multiset(s)[c] <= 1
  }

  lemma {:induction false} SubsequenceReflexive(s: string)
    ensures IsSubsequence(s, s)
  {
    if s != [] {
      SubsequenceReflexive(s[1..]);
    }
  }

  lemma {:induction false} SubsequenceTransitive(a: string, b: string, c: string)
    requires IsSubsequence(a, b) && IsSubsequence(b, c)
    ensures IsSubsequence(a, c)
    decreases |c|
  {
    if a != [] {
      assert b != [] && c != [];
      if IsSubsequence(b, c[1..]) {
        SubsequenceTransitive(a, b, c[1..]);
      } else if a[0] == b[0] && IsSubsequence(a[1..], b[1..]) {
        SubsequenceTransitive(a[1..], b[1..], c[1..]);
      } else {
        SubsequenceTransitive(a, b[1..], c[1..]);
      }
    }
  }

  /** Every element of a subsequence occurs in the whole. */
  lemma {:induction false} SubsequenceMembers(a: string, b: string)
    requires IsSubsequence(a, b)
    ensures forall x :: x in a ==> x in b
    decreases |b|
  {
    if a != [] {
      if a[0] == b[0] && IsSubsequence(a[1..], b[1..]) {
        SubsequenceMembers(a[1..], b[1..]);
        assert a == [a[0]] + a[1..];
      } else {
        SubsequenceMembers(a, b[1..]);
      }
    }
  }

  /** Filtering keeps a subsequence. */
  lemma {:induction false} WithoutIsSubsequence(s: string, bad: set<char>)
    ensures IsSubsequence(Without(s, bad), s)
  {
    if s != [] {
      WithoutIsSubsequence(s[1..], bad);
      var w := Without(s, bad);
      if s[0] !in bad {
        assert w[0] == s[0] && w[1..] == Without(s[1..], bad);
      } else {
        assert w == Without(s[1..], bad);
      }
    }
  }

  /**
    A subsequence of a duplicate-free list is that list filtered by the
    letters the subsequence leaves out.
   */
  lemma {:induction false} SubsequenceIsFilter(a: string, b: string)
    requires NoDuplicates(b) && IsSubsequence(a, b)
    ensures a == Without(b, LetterSet(b) - LetterSet(a))
    decreases |b|
  {
    var bad := LetterSet(b) - LetterSet(a);
    if b == [] {
      assert a == [];
    } else {
      NoDuplicatesTail(b);
      if a != [] && a[0] == b[0] && IsSubsequence(a[1..], b[1..]) {
        SubsequenceIsFilter(a[1..], b[1..]);
        assert a == [a[0]] + a[1..];
        WithoutAgree(b[1..], LetterSet(b[1..]) - LetterSet(a[1..]), bad);
      } else {
        assert IsSubsequence(a, b[1..]);
        SubsequenceMembers(a, b[1..]);
        SubsequenceIsFilter(a, b[1..]);
        assert b[0] in bad;
        WithoutAgree(b[1..], LetterSet(b[1..]) - LetterSet(a), bad);
      }
    }
  }

  /** The head of a duplicate-free list does not recur, and its tail is duplicate-free. */
  lemma NoDuplicatesTail(b: string)
    requires b != [] && NoDuplicates(b)
    ensures b[0] !in b[1..] && NoDuplicates(b[1..])
  {
    assert b == [b[0]] + b[1..];
    assert multiset(b)[b[0]] == 1 + multiset(b[1..])[b[0]];
    forall c ensures multiset(b[1..])[c] <= 1 {
      assert multiset(b)[c] <= 1;
    }
  }

  // ---------------------------------------------------------------------------
  // Pruning every occurrence: src/FenEditor.js

  /**
    The castling list with every letter removed whose home squares do not
    hold the required pieces.
   */
  function Prune(board: Board, s: string): (r: string)
    ensures IsSubsequence(r, s)
  {
    WithoutIsSubsequence(s, BrokenLetters(board));
    Without(s, BrokenLetters(board))
  }

  /**
    After pruning, no disallowed letter is left, and every allowed letter
    keeps its multiplicity.
   */
  lemma PruneKeepsAllowed(board: Board, s: string)
    ensures forall c :: multiset(Prune(board, s))[c] == if Allowed(board, c) then multiset(s)[c] else 0
    ensures forall c :: c in Prune(board, s) <==> c in s && Allowed(board, c)
  {
    forall c
      ensures multiset(Prune(board, s))[c] == if Allowed(board, c) then multiset(s)[c] else 0
      ensures c in Prune(board, s) <==> c in s && Allowed(board, c)
    {
      WithoutCount(s, BrokenLetters(board), c);
      WithoutMember(s, BrokenLetters(board), c);
    }
  }

  /** Each home square that does not hold its piece removes every occurrence of each of its letters. */
  lemma BrokenSquareRemovesLetters(board: Board, s: string, i: nat)
    requires i < |Rules| && !Holds(board, Rules[i].square, Rules[i].piece)
    ensures forall c :: c in Rules[i].letters ==> c !in Prune(board, s)
  {
    BrokenRuleLetters(board, |Rules|, i);
    TableLetters(board);
    forall c | c in Rules[i].letters
      ensures c !in Prune(board, s)
    {
      WithoutMember(s, BrokenLetters(board), c);
    }
  }

  /** Pruning twice on the same board is pruning once. */
  lemma PruneIdempotent(board: Board, s: string)
    ensures Prune(board, Prune(board, s)) == Prune(board, s)
  {
    var b := BrokenLetters(board);
    WithoutWithout(s, b, b);
    assert b + b == b;
  }

  // ---------------------------------------------------------------------------
  // Pruning the first occurrence: src/cm-fen-editor/FenEditor.mjs

  /** JavaScript's `s.indexOf(c)`: the first index holding `c`, or -1. */
  function IndexOf(s: string, c: char): (i: int)
    ensures -1 <= i < |s|
    ensures i == -1 <==> c !in s
    ensures 0 <= i ==> s[i] == c && c !in s[..i]
  {
    if s == [] then -1
    else if s[0] == c then 0
    else
      var j := IndexOf(s[1..], c);
      if j == -1 then -1
      else
        assert s[..j + 1] == [s[0]] + s[1..][..j];
        j + 1
  }

  /** The list with its first `c` deleted; unchanged when there is none. */
  function RemoveFirst(s: string, c: char): string {
    if s == [] then []
    else if s[0] == c then s[1..]
    else [s[0]] + RemoveFirst(s[1..], c)
  }

  /** Removing the first `c` takes one copy of `c` away, if there is one, and nothing else. */
  lemma {:induction false} RemoveFirstCount(s: string, c: char)
    ensures multiset(RemoveFirst(s, c)) == multiset(s) - multiset{c}
  {
    if s != [] {
      assert s == [s[0]] + s[1..];
      if s[0] != c {
        RemoveFirstCount(s[1..], c);
      }
    }
  }

  /** Without a `c`, there is nothing to remove. */
  lemma {:induction false} RemoveAbsent(s: string, c: char)
    requires c !in s
    ensures RemoveFirst(s, c) == s
  {
    if s != [] {
      RemoveAbsent(s[1..], c);
      assert s == [s[0]] + s[1..];
    }
  }

  /** Removing the first `c`, when it sits at index `i`, cuts out index `i`. */
  lemma {:induction false} RemoveAt(s: string, c: char, i: nat)
    requires i < |s| && s[i] == c && c !in s[..i]
    ensures RemoveFirst(s, c) == s[..i] + s[i + 1..]
  {
    if i > 0 {
      var tail := s[1..];
      assert s[0] in s[..i];
      assert tail[..i - 1] == s[1..i];
      RemoveAt(tail, c, i - 1);
      assert s[..i] == [s[0]] + tail[..i - 1];
      assert s[i + 1..] == tail[i..];
    }
  }

  /** `indexOf` followed by `splice(index, 1)` when found is `RemoveFirst`. */
  lemma SpliceAtIndexOf(s: string, c: char)
    ensures IndexOf(s, c) == -1 ==> RemoveFirst(s, c) == s
    ensures IndexOf(s, c) != -1 ==> RemoveFirst(s, c) == s[..IndexOf(s, c)] + s[IndexOf(s, c) + 1..]
  {
    var i := IndexOf(s, c);
    if i == -1 {
      RemoveAbsent(s, c);
    } else {
      RemoveAt(s, c, i);
    }
  }

  lemma {:induction false} RemoveFirstIsSubsequence(s: string, c: char)
    ensures IsSubsequence(RemoveFirst(s, c), s)
  {
    if s != [] {
      if s[0] == c {
        SubsequenceReflexive(s[1..]);
      } else {
        RemoveFirstIsSubsequence(s[1..], c);
        var r := RemoveFirst(s, c);
        assert r[0] == s[0] && r[1..] == RemoveFirst(s[1..], c);
      }
    }
  }

  lemma {:induction false} WithoutNothing(s: string)
    ensures Without(s, {}) == s
  {
    if s != [] {
      WithoutNothing(s[1..]);
    }
  }

  /** Filtering out a letter that does not occur changes nothing. */
  lemma WithoutAbsent(s: string, c: char)
    requires c !in s
    ensures Without(s, {c}) == s
  {
    WithoutAgree(s, {c}, {});
    WithoutNothing(s);
  }

  /** On a list with at most one `c`, removing the first `c` is filtering `c` out. */
  lemma {:induction false} RemoveFirstIsFilter(s: string, c: char)
    requires multiset(s)[c] <= 1
    ensures RemoveFirst(s, c) == Without(s, {c})
  {
    if s != [] {
      assert s == [s[0]] + s[1..];
      if s[0] == c {
        assert c !in s[1..] by {
          assert multiset(s)[c] == 1 + multiset(s[1..])[c];
        }
        WithoutAbsent(s[1..], c);
      } else {
        RemoveFirstIsFilter(s[1..], c);
      }
    }
  }

  /** `RemoveFirst` applied only when the right is not allowed. */
  function DropUnless(allowed: bool, s: string, c: char): string {
    if allowed then s else RemoveFirst(s, c)
  }

  /**
    The four conditional removals, for K, Q, k and q in that order; `aK`
    and the others say whether that right is allowed.
   */
  function DropChain(aK: bool, aQ: bool, ak: bool, aq: bool, s: string): string {
    var s1 := DropUnless(aK, s, 'K');
    var s2 := DropUnless(aQ, s1, 'Q');
    var s3 := DropUnless(ak, s2, 'k');
    DropUnless(aq, s3, 'q')
  }

  /** Whether the chain keeps letter `c`: only the four castling letters can be dropped. */
  function Kept(aK: bool, aQ: bool, ak: bool, aq: bool, c: char): bool {
    if c == 'K' then aK else if c == 'Q' then aQ else if c == 'k' then ak else if c == 'q' then aq else true
  }

  /**
    The `.mjs` pruning: for K, Q, k and q in that order, the first
    occurrence of a disallowed letter is removed.
   */
  function PruneFirst(board: Board, s: string): string {
    DropChain(Allowed(board, 'K'), Allowed(board, 'Q'), Allowed(board, 'k'), Allowed(board, 'q'), s)
  }

  /** One conditional removal lowers the count of its own letter by one, if present, and no other count. */
  lemma DropCount(allowed: bool, s: string, c: char, x: char)
    ensures multiset(DropUnless(allowed, s, c))[x] ==
      if x == c && !allowed && multiset(s)[x] > 0 then multiset(s)[x] - 1 else multiset(s)[x]
  {
    RemoveFirstCount(s, c);
  }

  /** The chain takes one copy of each dropped letter that occurs and leaves every other count alone. */
  lemma DropChainCount(aK: bool, aQ: bool, ak: bool, aq: bool, s: string, c: char)
    ensures multiset(DropChain(aK, aQ, ak, aq, s))[c] ==
            if !Kept(aK, aQ, ak, aq, c) && c in s then multiset(s)[c] - 1 else multiset(s)[c]
  {
    var s1 := DropUnless(aK, s, 'K');
    var s2 := DropUnless(aQ, s1, 'Q');
    var s3 := DropUnless(ak, s2, 'k');
    DropCount(aK, s, 'K', c);
    DropCount(aQ, s1, 'Q', c);
    DropCount(ak, s2, 'k', c);
    DropCount(aq, s3, 'q', c);
    assert c in s <==> multiset(s)[c] > 0;
  }

  /** The chain on the board's four rights keeps exactly the allowed letters. */
  lemma KeptIsAllowed(board: Board, c: char)
    ensures Kept(Allowed(board, 'K'), Allowed(board, 'Q'), Allowed(board, 'k'), Allowed(board, 'q'), c) == Allowed(board, c)
  {
    AllowedByTable(board);
  }

  /**
    First-occurrence pruning takes exactly one copy of each disallowed
    letter that occurs, and leaves every other letter's multiplicity alone.
   */
  lemma PruneFirstCount(board: Board, s: string, c: char)
    ensures multiset(PruneFirst(board, s))[c] ==
            if !Allowed(board, c) && c in s then multiset(s)[c] - 1 else multiset(s)[c]
  {
    DropChainCount(Allowed(board, 'K'), Allowed(board, 'Q'), Allowed(board, 'k'), Allowed(board, 'q'), s, c);
    KeptIsAllowed(board, c);
  }

  /** First-occurrence pruning keeps the survivors in their order. */
  lemma PruneFirstIsSubsequence(board: Board, s: string)
    ensures IsSubsequence(PruneFirst(board, s), s)
  {
    var s1 := DropUnless(Allowed(board, 'K'), s, 'K');
    var s2 := DropUnless(Allowed(board, 'Q'), s1, 'Q');
    var s3 := DropUnless(Allowed(board, 'k'), s2, 'k');
    var s4 := DropUnless(Allowed(board, 'q'), s3, 'q');
    SubsequenceReflexive(s);
    SubsequenceReflexive(s1);
    SubsequenceReflexive(s2);
    SubsequenceReflexive(s3);
    RemoveFirstIsSubsequence(s, 'K');
    RemoveFirstIsSubsequence(s1, 'Q');
    RemoveFirstIsSubsequence(s2, 'k');
    RemoveFirstIsSubsequence(s3, 'q');
    SubsequenceTransitive(s2, s1, s);
    SubsequenceTransitive(s3, s2, s);
    SubsequenceTransitive(s4, s3, s);
  }

  /**
    With no king on e1, neither "K" nor "Q" survives when it occurs at most
    once; the same for "k" and "q" with no king on e8.
   */
  lemma KingMissingDropsBothRights(board: Board, s: string)
    requires multiset(s)['K'] <= 1 && multiset(s)['Q'] <= 1 && multiset(s)['k'] <= 1 && multiset(s)['q'] <= 1
    ensures PieceAt(board, "e1") != Some("wk") ==> 'K' !in PruneFirst(board, s) && 'Q' !in PruneFirst(board, s)
    ensures PieceAt(board, "e8") != Some("bk") ==> 'k' !in PruneFirst(board, s) && 'q' !in PruneFirst(board, s)
  {
    AllowedByTable(board);
    PruneFirstCount(board, s, 'K');
    PruneFirstCount(board, s, 'Q');
    PruneFirstCount(board, s, 'k');
    PruneFirstCount(board, s, 'q');
  }

  /** A missing rook removes the single occurrence of its letter. */
  lemma RookMissingDropsRight(board: Board, s: string)
    requires multiset(s)['K'] <= 1 && multiset(s)['Q'] <= 1 && multiset(s)['k'] <= 1 && multiset(s)['q'] <= 1
    ensures PieceAt(board, "h1") != Some("wr") ==> 'K' !in PruneFirst(board, s)
    ensures PieceAt(board, "a1") != Some("wr") ==> 'Q' !in PruneFirst(board, s)
    ensures PieceAt(board, "h8") != Some("br") ==> 'k' !in PruneFirst(board, s)
    ensures PieceAt(board, "a8") != Some("br") ==> 'q' !in PruneFirst(board, s)
  {
    AllowedByTable(board);
    PruneFirstCount(board, s, 'K');
    PruneFirstCount(board, s, 'Q');
    PruneFirstCount(board, s, 'k');
    PruneFirstCount(board, s, 'q');
  }

  /** Filtering keeps a list free of duplicates. */
  lemma WithoutNoDuplicates(s: string, bad: set<char>)
    requires NoDuplicates(s)
    ensures NoDuplicates(Without(s, bad))
  {
    forall c ensures multiset(Without(s, bad))[c] <= 1 {
      WithoutCount(s, bad, c);
    }
  }

  lemma DropIsFilter(allowed: bool, s: string, c: char)
    requires NoDuplicates(s)
    ensures DropUnless(allowed, s, c) == Without(s, if allowed then {} else {c})
    ensures NoDuplicates(DropUnless(allowed, s, c))
  {
    if allowed {
      WithoutNothing(s);
    } else {
      RemoveFirstIsFilter(s, c);
      WithoutNoDuplicates(s, {c});
    }
  }

  /** On a list without repeated letters, the chain filters out the letters it does not keep. */
  lemma DropChainIsFilter(aK: bool, aQ: bool, ak: bool, aq: bool, s: string)
    requires NoDuplicates(s)
    ensures DropChain(aK, aQ, ak, aq, s) == Without(s, Unticked(aK, aQ, ak, aq))
  {
    var bK: set<char> := if aK then {} else {'K'};
    var bQ: set<char> := if aQ then {} else {'Q'};
    var bk: set<char> := if ak then {} else {'k'};
    var bq: set<char> := if aq then {} else {'q'};
    var s1 := DropUnless(aK, s, 'K');
    var s2 := DropUnless(aQ, s1, 'Q');
    var s3 := DropUnless(ak, s2, 'k');
    DropIsFilter(aK, s, 'K');
    DropIsFilter(aQ, s1, 'Q');
    DropIsFilter(ak, s2, 'k');
    DropIsFilter(aq, s3, 'q');
    WithoutWithout(s, bK, bQ);
    WithoutWithout(s, bK + bQ, bk);
    WithoutWithout(s, bK + bQ + bk, bq);
  }

  /** The letters the board's chain does not keep are the broken ones. */
  lemma UntickedIsBroken(board: Board)
    ensures Unticked(Allowed(board, 'K'), Allowed(board, 'Q'), Allowed(board, 'k'), Allowed(board, 'q')) == BrokenLetters(board)
  {
    AllowedByTable(board);
  }

  /** On a list without repeated letters, the two revisions' prunings agree. */
  lemma PruneFirstMatchesPrune(board: Board, s: string)
    requires NoDuplicates(s)
    ensures PruneFirst(board, s) == Prune(board, s)
  {
    DropChainIsFilter(Allowed(board, 'K'), Allowed(board, 'Q'), Allowed(board, 'k'), Allowed(board, 'q'), s);
    UntickedIsBroken(board);
  }

  /** On a list without repeated letters, first-occurrence pruning is idempotent. */
  lemma PruneFirstIdempotent(board: Board, s: string)
    requires NoDuplicates(s)
    ensures PruneFirst(board, PruneFirst(board, s)) == PruneFirst(board, s)
  {
    PruneFirstMatchesPrune(board, s);
    WithoutNoDuplicates(s, BrokenLetters(board));
    PruneFirstMatchesPrune(board, Prune(board, s));
    PruneIdempotent(board, s);
  }

  /**
    With a repeated letter it is not: on an empty board "KK" prunes to "K"
    and then to "".
   */
  lemma PruneFirstNotIdempotentWithDuplicates()
    ensures PruneFirst(map[], "KK") == "K"
    ensures PruneFirst(map[], "K") == ""
  {
    var board: Board := map[];
    AllowedByTable(board);
    assert RemoveFirst("KK", 'K') == "K";
    assert RemoveFirst("K", 'K') == "";
    RemoveAbsent("K", 'Q');
    RemoveAbsent("K", 'k');
    RemoveAbsent("K", 'q');
  }

  // ---------------------------------------------------------------------------
  // Checkboxes and the castling list: src/FenEditor.js

  /** `setCastleState`: the letters of the ticked boxes, in the fixed order K, Q, k, q. */
  function FromCheckboxes(wk: bool, wq: bool, bk: bool, bq: bool): string {
    (if wk then "K" else "") + (if wq then "Q" else "") + (if bk then "k" else "") + (if bq then "q" else "")
  }

  /** The letters of the unticked boxes. */
  function Unticked(wk: bool, wq: bool, bk: bool, bq: bool): set<char> {
    (if wk then {} else {'K'}) + (if wq then {} else {'Q'}) + (if bk then {} else {'k'}) + (if bq then {} else {'q'})
  }

  /** The ticked boxes' list is "KQkq" without the unticked letters. */
  lemma FromCheckboxesIsFilter(wk: bool, wq: bool, bk: bool, bq: bool)
    ensures FromCheckboxes(wk, wq, bk, bq) == Without(AllLetters, Unticked(wk, wq, bk, bq))
  {
    var bad := Unticked(wk, wq, bk, bq);
    assert Without("", bad) == "";
    assert Without("q", bad) == (if bq then "q" else "");
    assert Without("kq", bad) == (if bk then "k" else "") + Without("q", bad) by { assert "kq"[1..] == "q"; }
    assert Without("Qkq", bad) == (if wq then "Q" else "") + Without("kq", bad) by { assert "Qkq"[1..] == "kq"; }
    assert Without("KQkq", bad) == (if wk then "K" else "") + Without("Qkq", bad) by { assert "KQkq"[1..] == "Qkq"; }
  }

  lemma AllLettersDistinct()
    ensures NoDuplicates(AllLetters)
  {
    assert AllLetters == ['K'] + ['Q'] + ['k'] + ['q'];
    assert multiset(AllLetters) == multiset{'K', 'Q', 'k', 'q'};
  }

  /**
    What `setCastleState` stores is a duplicate-free subsequence of "KQkq"
    holding only allowed letters.
   */
  lemma CheckboxListShape(board: Board, wk: bool, wq: bool, bk: bool, bq: bool)
    ensures var r := Prune(board, FromCheckboxes(wk, wq, bk, bq));
      IsSubsequence(r, AllLetters) && NoDuplicates(r) && (forall c :: c in r ==> Allowed(board, c))
  {
    var f := FromCheckboxes(wk, wq, bk, bq);
    var r := Prune(board, f);
    FromCheckboxesIsFilter(wk, wq, bk, bq);
    WithoutIsSubsequence(AllLetters, Unticked(wk, wq, bk, bq));
    SubsequenceTransitive(r, f, AllLetters);
    AllLettersDistinct();
    WithoutNoDuplicates(AllLetters, Unticked(wk, wq, bk, bq));
    WithoutNoDuplicates(f, BrokenLetters(board));
    PruneKeepsAllowed(board, f);
  }

  /** The boxes left unticked by the letters of `s` are the castling letters missing from `s`. */
  lemma UntickedIsMissing(s: string)
    ensures Unticked('K' in s, 'Q' in s, 'k' in s, 'q' in s) == LetterSet(AllLetters) - LetterSet(s)
  {
    assert LetterSet(AllLetters) == {'K', 'Q', 'k', 'q'};
  }

  /** A subsequence of "KQkq" is rebuilt exactly from the boxes its letters tick. */
  lemma CheckboxesRebuildList(s: string)
    requires IsSubsequence(s, AllLetters)
    ensures FromCheckboxes('K' in s, 'Q' in s, 'k' in s, 'q' in s) == s
  {
    AllLettersDistinct();
    SubsequenceIsFilter(s, AllLetters);
    FromCheckboxesIsFilter('K' in s, 'Q' in s, 'k' in s, 'q' in s);
    UntickedIsMissing(s);
  }

  /**
    Round trip: deriving the four checkboxes from an already pruned
    subsequence of "KQkq" and running `setCastleState` gives the same list.
   */
  lemma CheckboxRoundTrip(board: Board, s: string)
    requires IsSubsequence(s, AllLetters) && Prune(board, s) == s
    ensures Prune(board, FromCheckboxes('K' in s, 'Q' in s, 'k' in s, 'q' in s)) == s
  {
    CheckboxesRebuildList(s);
  }
}
