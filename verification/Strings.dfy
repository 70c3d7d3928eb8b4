/** strings.Trim, strings.TrimSpace and strings.ToLower, on ASCII white space and letters. */
module Strings {
  import opened Bytes
  import opened HostPort

  predicate IsSpace(c: Byte) {
    c == 32 || 9 <= c <= 13
  }

  predicate IsBracket(c: Byte) {
    c == OPEN || c == CLOSE
  }

  function TrimLeft(s: Text, cut: Byte -> bool): Text {
    if s != [] && cut(s[0]) then TrimLeft(s[1..], cut) else s
  }

  function TrimRight(s: Text, cut: Byte -> bool): (t: Text)
    ensures |t| <= |s| && t == s[..|t|]
    ensures t == [] || !cut(t[|t| - 1])
  {
    if s != [] && cut(s[|s| - 1]) then TrimRight(s[..|s| - 1], cut) else s
  }

  /** strings.Trim with a set of octets. */
  function Trim(s: Text, cut: Byte -> bool): Text {
    TrimRight(TrimLeft(s, cut), cut)
  }

  function TrimSpace(s: Text): Text {
    Trim(s, IsSpace)
  }

  function TrimBrackets(s: Text): Text {
    Trim(s, IsBracket)
  }

  function ToLower(s: Text): Text {
    seq(|s|, i requires 0 <= i < |s| => if 65 <= s[i] <= 90 then s[i] + 32 else s[i])
  }

  lemma TrimKeeps(s: Text, cut: Byte -> bool)
    requires s == [] || (!cut(s[0]) && !cut(s[|s| - 1]))
    ensures Trim(s, cut) == s
  {
  }

  lemma TrimBracketsKeeps(s: Text)
    requires NoBrackets(s)
    ensures TrimBrackets(s) == s
  {
    if s != [] {
      assert s[0] in s && s[|s| - 1] in s;
    }
  }

  // ---------- trimmed and folded text, octet by octet ----------

  /** Tab, line feed, vertical tab, form feed, carriage return, space. */
  ghost predicate Blank(s: Text) {
    forall i | 0 <= i < |s| :: s[i] in {9, 10, 11, 12, 13, 32}
  }

  /** m stands at i, with nothing but white space around it, and has none at its ends. */
  ghost predicate TrimmedAt(s: Text, m: Text, i: int) {
    && 0 <= i <= i + |m| <= |s| && m == s[i..i + |m|] && Blank(s[..i]) && Blank(s[i + |m|..])
    && (m == [] || (!Blank([s[i]]) && !Blank([s[i + |m| - 1]])))
  }

  /** m is what is left of s without the white space at both ends. */
  ghost predicate Trimmed(s: Text, m: Text) {
    exists i :: TrimmedAt(s, m, i)
  }

  lemma SpaceIff(c: Byte)
    ensures IsSpace(c) <==> Blank([c])
  {
    assert [c][0] == c;
  }

  lemma {:induction false} TrimLeftCuts(s: Text)
    ensures var t := TrimLeft(s, IsSpace);
            |t| <= |s| && t == s[|s| - |t|..] && Blank(s[..|s| - |t|]) && (t == [] || !IsSpace(t[0]))
  {
    if s != [] && IsSpace(s[0]) {
      SpaceIff(s[0]);
      TrimLeftCuts(s[1..]);
      var t := TrimLeft(s[1..], IsSpace);
      assert [s[0]][0] == s[0];
      assert s[..|s| - |t|] == [s[0]] + s[1..][..|s| - 1 - |t|];
    }
  }

  lemma {:induction false} TrimRightCuts(s: Text)
    ensures Blank(s[|TrimRight(s, IsSpace)|..])
  {
    if s != [] && IsSpace(s[|s| - 1]) {
      SpaceIff(s[|s| - 1]);
      TrimRightCuts(s[..|s| - 1]);
      var n := |TrimRight(s[..|s| - 1], IsSpace)|;
      assert [s[|s| - 1]][0] == s[|s| - 1];
      assert s[n..] == s[..|s| - 1][n..] + [s[|s| - 1]];
    }
  }

  lemma TrimSpaceTrims(s: Text)
    ensures Trimmed(s, TrimSpace(s))
  {
    TrimLeftCuts(s);
    var t := TrimLeft(s, IsSpace);
    TrimRightCuts(t);
    var m := TrimRight(t, IsSpace);
    hide TrimLeft, TrimRight, IsSpace;
    var i := |s| - |t|;
    var j := i + |m|;
    assert m == s[i..j] && s[j..] == t[|m|..];
    if m != [] {
      assert m[0] == t[0] == s[i] && m[|m| - 1] == s[j - 1];
      SpaceIff(m[0]);
      SpaceIff(m[|m| - 1]);
    }
    assert TrimmedAt(s, m, i);
  }

  lemma CutsAgree(s: Text, m: Text, i: int, n: Text, k: int)
    requires TrimmedAt(s, m, i) && TrimmedAt(s, n, k) && m != []
    ensures m == n && i == k
  {
    hide Blank;
    NotBlankWithin(s, i, k, k + |n|);
    NotBlankWithin(s, i + |m| - 1, k, k + |n|);
    NotBlankWithin(s, k, i, i + |m|);
    NotBlankWithin(s, k + |n| - 1, i, i + |m|);
  }

  lemma TrimmedIsUnique(s: Text, m: Text, n: Text)
    requires Trimmed(s, m) && Trimmed(s, n)
    ensures m == n
  {
    hide TrimmedAt;
    var i :| TrimmedAt(s, m, i);
    var k :| TrimmedAt(s, n, k);
    if m != [] {
      CutsAgree(s, m, i, n, k);
    } else if n != [] {
      CutsAgree(s, n, k, m, i);
    }
  }

  /** An octet that is not white space lies within what is left. */
  lemma NotBlankWithin(s: Text, x: int, i: int, j: int)
    requires 0 <= x < |s| && 0 <= i <= j <= |s| && !Blank([s[x]]) && Blank(s[..i]) && Blank(s[j..])
    ensures i <= x < j
  {
    assert [s[x]][0] == s[x];
    assert forall k | 0 <= k < i :: s[..i][k] == s[k];
    assert forall k | j <= k < |s| :: s[k] == s[j..][k - j];
  }

  lemma TrimSpaceIff(s: Text, m: Text)
    ensures TrimSpace(s) == m <==> Trimmed(s, m)
  {
    TrimSpaceTrims(s);
    hide TrimSpace, Trimmed;
    if Trimmed(s, m) {
      TrimmedIsUnique(s, TrimSpace(s), m);
    }
  }

  lemma BlankIff(s: Text)
    ensures TrimSpace(s) == [] <==> Blank(s)
  {
    TrimSpaceIff(s, []);
    hide TrimSpace;
    if i :| TrimmedAt(s, [], i) {
      assert s == s[..i] + s[i..];
    }
    if Blank(s) {
      assert s[..|s|] == s && s[|s|..|s|] == [] && s[|s|..] == [];
      assert TrimmedAt(s, [], |s|);
    }
  }

  /** s is the word, with some letters in upper case. */
  ghost predicate Spells(s: Text, word: Text) {
    && |s| == |word|
    && forall i | 0 <= i < |s| :: s[i] == word[i] || (65 <= s[i] <= 90 && s[i] as int + 32 == word[i] as int)
  }

  lemma ToLowerIff(s: Text, word: Text)
    requires forall c | c in word :: !(65 <= c <= 90)
    ensures ToLower(s) == word <==> Spells(s, word)
  {
    var t := ToLower(s);
    assert forall i | 0 <= i < |word| :: word[i] in word;
    if Spells(s, word) {
      forall i | 0 <= i < |s|
        ensures t[i] == word[i]
      {
      }
    }
  }

  /** The text says the word, between any white space and in any case. */
  ghost predicate Says(s: Text, word: Text) {
    exists m :: Trimmed(s, m) && Spells(m, word)
  }

  lemma SaysIff(s: Text, word: Text)
    requires forall c | c in word :: !(65 <= c <= 90)
    ensures ToLower(TrimSpace(s)) == word <==> Says(s, word)
  {
    TrimSpaceIff(s, TrimSpace(s));
    ToLowerIff(TrimSpace(s), word);
    hide ToLower, TrimSpace, Spells;
    if m :| Trimmed(s, m) && Spells(m, word) {
      TrimSpaceIff(s, m);
    }
  }
}
