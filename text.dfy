/**
 The string operations the design-file reader relies on, with Java's
 semantics: `String.trim`, `String.split(" +")` and `String.toLowerCase`
 (restricted to ASCII letters), plus the inverse of splitting: joining
 words with runs of spaces (`JoinWith`), and with single spaces (`Join`).
 */
module Text {

  /** `String.trim` removes every leading and trailing character at or below U+0020. */
  predicate IsTrimmable(c: char) {
    c <= ' '
  }

  /** A word: a non-empty string with no character that `trim` would remove (so no space). */
  predicate IsWord(w: string) {
    w != [] && forall i :: 0 <= i < |w| ==> !IsTrimmable(w[i])
  }

  /** Nothing but trimmable characters: what `trim` reduces to the empty string. */
  predicate IsBlank(s: string) {
    forall i :: 0 <= i < |s| ==> IsTrimmable(s[i])
  }

  function TrimStart(s: string): string {
    if s != [] && IsTrimmable(s[0]) then TrimStart(s[1..]) else s
  }

  function TrimEnd(s: string): string {
    if s != [] && IsTrimmable(s[|s| - 1]) then TrimEnd(s[..|s| - 1]) else s
  }

  /**
   Java's `trim`: the longest slice of `s` that neither starts nor ends
   with a trimmable character (see `TrimFacts`).
   */
  function Trim(s: string): string {
    TrimEnd(TrimStart(s))
  }

  /** `TrimStart` cuts off a blank prefix and leaves a suffix that does not start with a trimmable character. */
  lemma {:induction false} TrimStartFacts(s: string)
    ensures var r := TrimStart(s);
      && |r| <= |s| && r == s[|s| - |r|..]
      && IsBlank(s[..|s| - |r|])
      && (r == [] || !IsTrimmable(r[0]))
  {
    if s != [] && IsTrimmable(s[0]) {
      TrimStartFacts(s[1..]);
      var r := TrimStart(s[1..]);
      assert s[..|s| - |r|] == [s[0]] + s[1..][..|s| - 1 - |r|];
    }
  }

  /** `TrimEnd` cuts off a blank suffix and leaves a prefix that does not end with a trimmable character. */
  lemma {:induction false} TrimEndFacts(s: string)
    ensures var r := TrimEnd(s);
      && |r| <= |s| && r == s[..|r|]
      && IsBlank(s[|r|..])
      && (r == [] || !IsTrimmable(r[|r| - 1]))
  {
    if s != [] && IsTrimmable(s[|s| - 1]) {
      TrimEndFacts(s[..|s| - 1]);
      var r := TrimEnd(s[..|s| - 1]);
      assert s[|r|..] == s[..|s| - 1][|r|..] + [s[|s| - 1]];
    }
  }

  /**
   What `trim` promises: the result is empty exactly when the whole string
   is blank, otherwise it starts and ends with a non-trimmable character,
   and it is a slice of the input with only blank text cut off either side.
   */
  lemma TrimFacts(s: string)
    ensures var r := Trim(s);
      && (r == [] <==> IsBlank(s))
      && (r != [] ==> !IsTrimmable(r[0]) && !IsTrimmable(r[|r| - 1]))
      && |r| <= |s|
      && exists k :: 0 <= k <= |s| - |r| && r == s[k..k + |r|] && IsBlank(s[..k]) && IsBlank(s[k + |r|..])
  {
    var t := TrimStart(s);
    var r := TrimEnd(t);
    TrimStartFacts(s);
    TrimEndFacts(t);
    TrimStartBlank(s);
    TrimEndBlank(t);
    assert IsBlank(t) <==> t == [] by {
      if t != [] { assert !IsTrimmable(t[0]); }
    }
    if r != [] {
      assert r[0] == t[0];
    }
    var k := |s| - |t|;
    assert r == s[k..k + |r|];
    assert s[k + |r|..] == t[|r|..];
  }

  lemma {:induction false} TrimStartBlank(s: string)
    ensures TrimStart(s) == [] <==> IsBlank(s)
  {
    if s != [] {
      if IsTrimmable(s[0]) {
        TrimStartBlank(s[1..]);
        assert IsBlank(s) <==> IsBlank(s[1..]) by {
          if IsBlank(s[1..]) {
            forall i | 1 <= i < |s| ensures IsTrimmable(s[i]) { assert s[i] == s[1..][i - 1]; }
          }
        }
      } else {
        assert !IsBlank(s);
      }
    }
  }

  lemma {:induction false} TrimEndBlank(s: string)
    ensures TrimEnd(s) == [] <==> IsBlank(s)
  {
    if s != [] {
      var n := |s| - 1;
      if IsTrimmable(s[n]) {
        TrimEndBlank(s[..n]);
        assert IsBlank(s) <==> IsBlank(s[..n]) by {
          if IsBlank(s[..n]) {
            forall i | 0 <= i < n ensures IsTrimmable(s[i]) { assert s[i] == s[..n][i]; }
          }
        }
      } else {
        assert !IsBlank(s);
      }
    }
  }

  /** A string that starts and ends with a non-trimmable character is its own trim. */
  lemma TrimKeeps(s: string)
    requires s == [] || (!IsTrimmable(s[0]) && !IsTrimmable(s[|s| - 1]))
    ensures Trim(s) == s
  {
  }

  /** Drops the leading run of spaces. */
  function DropSpaces(s: string): (r: string)
    ensures |r| <= |s|
  {
    if s != [] && s[0] == ' ' then DropSpaces(s[1..]) else s
  }

  /**
   The pieces of `s` between the matches of the regular expression " +"
   (each maximal run of spaces is one match), empty pieces included.
   */
  function Pieces(s: string): (r: seq<string>)
    ensures |r| >= 1
    decreases |s|
  {
    if s == [] then [[]]
    else if s[0] == ' ' then [[]] + Pieces(DropSpaces(s[1..]))
    else
      var p := Pieces(s[1..]);
      [[s[0]] + p[0]] + p[1..]
  }

  /** Removes the empty strings at the end of a split, as `String.split` with limit 0 does. */
  function DropTrailingEmpty(p: seq<string>): seq<string>
  {
    if p != [] && p[|p| - 1] == [] then DropTrailingEmpty(p[..|p| - 1]) else p
  }

  /**
   Java's `s.split(" +")`: with no space in `s` the result is `[s]` (so the
   empty string splits into one empty word); otherwise the pieces between
   runs of spaces, without the empty pieces at the end.
   */
  function Split(s: string): seq<string>
  {
    if ' ' !in s then [s] else DropTrailingEmpty(Pieces(s))
  }

  /** A piece of a split line that is a real word: non-empty and free of spaces. */
  predicate IsPiece(w: string) {
    w != [] && ' ' !in w
  }

  /** One match of " +": a non-empty run of spaces. */
  predicate IsGap(g: string) {
    g != [] && forall i :: 0 <= i < |g| ==> g[i] == ' '
  }

  /** The words of `ws` with `gaps[i]` between `ws[i]` and `ws[i + 1]`. */
  function JoinWith(ws: seq<string>, gaps: seq<string>): string
    requires |ws| >= 1 && |gaps| == |ws| - 1
  {
    if |ws| == 1 then ws[0] else ws[0] + gaps[0] + JoinWith(ws[1..], gaps[1..])
  }

  /** The words of `ws` separated by single spaces, as a design file writes them. */
  function Join(ws: seq<string>): string
    requires |ws| >= 1
  {
    if |ws| == 1 then ws[0] else ws[0] + " " + Join(ws[1..])
  }

  /** `n` single-space gaps. */
  function Singles(n: nat): (gaps: seq<string>)
    ensures |gaps| == n && forall i :: 0 <= i < n ==> gaps[i] == " "
  {
    seq(n, _ => " ")
  }

  lemma {:induction false} JoinIsJoinWith(ws: seq<string>)
    requires |ws| >= 1
    ensures Join(ws) == JoinWith(ws, Singles(|ws| - 1))
  {
    if |ws| > 1 {
      JoinIsJoinWith(ws[1..]);
      assert Singles(|ws| - 1)[1..] == Singles(|ws| - 2);
    }
  }

  lemma WordIsPiece(w: string)
    requires IsWord(w)
    ensures IsPiece(w)
  {
    forall i | 0 <= i < |w| ensures w[i] != ' ' {
      assert !IsTrimmable(w[i]);
    }
  }

  lemma {:induction false} PiecesOfWord(w: string)
    requires ' ' !in w
    ensures Pieces(w) == [w]
  {
    if w != [] {
      PiecesOfWord(w[1..]);
      assert [w[0]] + w[1..] == w;
    }
  }

  /** A run of spaces is skipped up to the next non-space. */
  lemma {:induction false} DropSpacesRun(g: string, b: string)
    requires forall i :: 0 <= i < |g| ==> g[i] == ' '
    requires b == [] || b[0] != ' '
    ensures DropSpaces(g + b) == b
  {
    if g == [] {
      assert g + b == b;
    } else {
      assert (g + b)[0] == ' ';
      assert (g + b)[1..] == g[1..] + b;
      DropSpacesRun(g[1..], b);
    }
  }

  /** A run of spaces after a space-free prefix ends exactly one piece. */
  lemma {:induction false} PiecesAfterGap(a: string, g: string, b: string)
    requires ' ' !in a && IsGap(g)
    requires b == [] || b[0] != ' '
    ensures Pieces(a + g + b) == [a] + Pieces(b)
  {
    var s := a + g + b;
    if a == [] {
      assert s == g + b;
      assert s[0] == ' ';
      assert s[1..] == g[1..] + b;
      DropSpacesRun(g[1..], b);
    } else {
      assert s[0] == a[0];
      assert s[1..] == a[1..] + g + b;
      PiecesAfterGap(a[1..], g, b);
      assert [a[0]] + a[1..] == a;
    }
  }

  lemma {:induction false} JoinWithFacts(ws: seq<string>, gaps: seq<string>)
    requires |ws| >= 1 && |gaps| == |ws| - 1
    requires forall i :: 0 <= i < |ws| ==> IsPiece(ws[i])
    requires forall i :: 0 <= i < |gaps| ==> IsGap(gaps[i])
    ensures ws[0] != [] && ws[|ws| - 1] != [] && JoinWith(ws, gaps) != []
    ensures JoinWith(ws, gaps)[0] == ws[0][0]
    ensures JoinWith(ws, gaps)[|JoinWith(ws, gaps)| - 1] == ws[|ws| - 1][|ws[|ws| - 1]| - 1]
    ensures (' ' in JoinWith(ws, gaps)) <==> |ws| > 1
  {
    if |ws| > 1 {
      JoinWithFacts(ws[1..], gaps[1..]);
      var s := JoinWith(ws, gaps);
      var r := JoinWith(ws[1..], gaps[1..]);
      assert s == ws[0] + gaps[0] + r;
      assert s[|ws[0]|] == gaps[0][0] == ' ';
      assert s[|s| - 1] == r[|r| - 1];
    }
  }

  lemma {:induction false} PiecesOfJoinWith(ws: seq<string>, gaps: seq<string>)
    requires |ws| >= 1 && |gaps| == |ws| - 1
    requires forall i :: 0 <= i < |ws| ==> IsPiece(ws[i])
    requires forall i :: 0 <= i < |gaps| ==> IsGap(gaps[i])
    ensures Pieces(JoinWith(ws, gaps)) == ws
  {
    if |ws| == 1 {
      PiecesOfWord(ws[0]);
    } else {
      var rest := JoinWith(ws[1..], gaps[1..]);
      assert JoinWith(ws, gaps) == ws[0] + gaps[0] + rest;
      JoinWithFacts(ws[1..], gaps[1..]);
      assert IsPiece(ws[0]) && IsPiece(ws[1]) && IsGap(gaps[0]);
      PiecesAfterGap(ws[0], gaps[0], rest);
      PiecesOfJoinWith(ws[1..], gaps[1..]);
      assert [ws[0]] + ws[1..] == ws;
    }
  }

  /** Splitting words separated by runs of spaces gives the words back, whatever the runs' lengths. */
  lemma SplitJoinWith(ws: seq<string>, gaps: seq<string>)
    requires |ws| >= 1 && |gaps| == |ws| - 1
    requires forall i :: 0 <= i < |ws| ==> IsPiece(ws[i])
    requires forall i :: 0 <= i < |gaps| ==> IsGap(gaps[i])
    ensures Split(JoinWith(ws, gaps)) == ws
  {
    JoinWithFacts(ws, gaps);
    if |ws| > 1 {
      PiecesOfJoinWith(ws, gaps);
      assert ws[|ws| - 1] != [];
    }
  }

  lemma JoinFacts(ws: seq<string>)
    requires |ws| >= 1
    requires forall i :: 0 <= i < |ws| ==> IsWord(ws[i])
    ensures Join(ws) != []
    ensures !IsTrimmable(Join(ws)[0]) && !IsTrimmable(Join(ws)[|Join(ws)| - 1])
    ensures (' ' in Join(ws)) <==> |ws| > 1
  {
    forall i | 0 <= i < |ws| ensures IsPiece(ws[i]) {
      WordIsPiece(ws[i]);
    }
    JoinIsJoinWith(ws);
    JoinWithFacts(ws, Singles(|ws| - 1));
  }

  /** Splitting words joined by single spaces gives the words back. */
  lemma SplitJoin(ws: seq<string>)
    requires |ws| >= 1
    requires forall i :: 0 <= i < |ws| ==> IsWord(ws[i])
    ensures Split(Join(ws)) == ws
  {
    forall i | 0 <= i < |ws| ensures IsPiece(ws[i]) {
      WordIsPiece(ws[i]);
    }
    JoinIsJoinWith(ws);
    SplitJoinWith(ws, Singles(|ws| - 1));
  }

  /** ASCII letters 'A'..'Z' lower-cased; every other character unchanged. */
  function LowerChar(c: char): char {
    if 'A' <= c <= 'Z' then (c as int - 'A' as int + 'a' as int) as char else c
  }

  function Lower(s: string): string
  {
    seq(|s|, i requires 0 <= i < |s| => LowerChar(s[i]))
  }
}
