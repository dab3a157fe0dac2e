/** Text made of pieces with a separator between them. */
module Separated {
  predicate Without(s: string, sep: char) {
    forall i :: 0 <= i < |s| ==> s[i] != sep
  }

  /** `split`: the pieces between separators, at least one. */
  function Split(s: string, sep: char): (r: seq<string>)
    ensures r != [] && forall i :: 0 <= i < |r| ==> Without(r[i], sep)
  {
    if s == [] then [[]]
    else
      var init, c := Split(s[..|s| - 1], sep), s[|s| - 1];
      if c == sep then init + [[]] else init[..|init| - 1] + [init[|init| - 1] + [c]]
  }

  /** The pieces with separators between them. */
  function Join(pieces: seq<string>, sep: char): string {
    if pieces == [] then []
    else if |pieces| == 1 then pieces[0]
    else Join(pieces[..|pieces| - 1], sep) + [sep] + pieces[|pieces| - 1]
  }

  lemma JoinOne(piece: string, sep: char)
    ensures Join([piece], sep) == piece
  {
  }

  lemma JoinLast(pieces: seq<string>, last: string, sep: char)
    requires pieces != []
    ensures Join(pieces + [last], sep) == Join(pieces, sep) + [sep] + last
  {
  }

  lemma JoinGrow(pieces: seq<string>, last: string, c: char, sep: char)
    ensures Join(pieces + [last + [c]], sep) == Join(pieces + [last], sep) + [c]
  {
  }

  /** Splitting loses nothing. */
  lemma {:induction false} JoinOfSplit(s: string, sep: char)
    ensures Join(Split(s, sep), sep) == s
  {
    hide Join;
    if s == [] {
      JoinOne([], sep);
    } else {
      var init, c := Split(s[..|s| - 1], sep), s[|s| - 1];
      JoinOfSplit(s[..|s| - 1], sep);
      if c == sep {
        JoinLast(init, [], sep);
      } else {
        var n := |init| - 1;
        JoinGrow(init[..n], init[n], c, sep);
        assert init[..n] + [init[n]] == init;
      }
    }
  }

  lemma {:induction false} SplitAppend(s: string, piece: string, sep: char)
    requires Without(piece, sep)
    ensures var init := Split(s, sep); Split(s + piece, sep) == init[..|init| - 1] + [init[|init| - 1] + piece]
  {
    var init := Split(s, sep);
    if piece == [] {
      assert s + piece == s && init[|init| - 1] + piece == init[|init| - 1];
    } else {
      var start, c := piece[..|piece| - 1], piece[|piece| - 1];
      SplitAppend(s, start, sep);
      assert (s + piece)[..|s + piece| - 1] == s + start;
      assert init[|init| - 1] + start + [c] == init[|init| - 1] + piece;
    }
  }

  lemma SplitSep(s: string, sep: char)
    ensures Split(s + [sep], sep) == Split(s, sep) + [[]]
  {
  }

  /** Joining loses nothing either, as no piece holds the separator. */
  lemma {:induction false} SplitOfJoin(pieces: seq<string>, sep: char)
    requires pieces != [] && forall i :: 0 <= i < |pieces| ==> Without(pieces[i], sep)
    ensures Split(Join(pieces, sep), sep) == pieces
  {
    hide Split;
    var n := |pieces| - 1;
    var last := pieces[n];
    if n == 0 {
      SplitNothing(sep);
      SplitAppend([], last, sep);
      assert [] + last == last;
    } else {
      var start := Join(pieces[..n], sep);
      SplitOfJoin(pieces[..n], sep);
      SplitSep(start, sep);
      SplitAppend(start + [sep], last, sep);
      assert [] + last == last;
    }
  }

  lemma SplitNothing(sep: char)
    ensures Split([], sep) == [[]]
  {
  }

  // ----- Trimming -----

  function StripLeft(s: string, blank: char -> bool): string {
    if s != [] && blank(s[0]) then StripLeft(s[1..], blank) else s
  }

  function StripRight(s: string, blank: char -> bool): string {
    if s != [] && blank(s[|s| - 1]) then StripRight(s[..|s| - 1], blank) else s
  }

  function Strip(s: string, blank: char -> bool): string {
    StripRight(StripLeft(s, blank), blank)
  }

  lemma StripNothing(s: string, blank: char -> bool)
    requires s != [] && !blank(s[0]) && !blank(s[|s| - 1])
    ensures Strip(s, blank) == s && StripLeft(s, blank) == s
  {
  }
}
