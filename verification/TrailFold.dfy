/**
 Names beyond ASCII that idna refuses (core/update.py): under a case folding that works character by character they
 keep their group through all renames as ASCII names do, so every name is foreseen by the streaming build.
 */
module TrailFold {
  import opened Text
  import opened TrailGroup

  function Fold(f: char -> string, s: string): string {
    if s == "" then "" else f(s[0]) + Fold(f, s[1..])
  }

  /** ASCII is folded as ASCII is; no other character becomes nothing, a slash or a question mark; folding twice is folding once. */
  ghost predicate Folding(f: char -> string) {
    && (forall c: char :: c < 128 as char ==> f(c) == [LowerChar(c)])
    && (forall c: char :: c >= 128 as char ==> f(c) != "" && '/' !in f(c) && '?' !in f(c))
    && (forall c: char :: Fold(f, f(c)) == f(c))
  }

  /** The folding of names is that of their characters, and idna gives ASCII names or refuses. */
  ghost predicate Charwise(n: Names, f: char -> string) {
    && Folding(f)
    && (forall s :: Lower(n, s) == Fold(f, s))
    && (forall s :: n.idna(s).Some? ==> IsAscii(n.idna(s).value))
  }

  // ---- folding and the renames

  lemma {:induction false} FoldConcat(f: char -> string, a: string, b: string)
    ensures Fold(f, a + b) == Fold(f, a) + Fold(f, b)
  {
    if a == "" {
      assert a + b == b;
    } else {
      assert (a + b)[1..] == a[1..] + b;
      FoldConcat(f, a[1..], b);
    }
  }

  lemma {:induction false} FoldTwice(f: char -> string, s: string)
    requires Folding(f)
    ensures Fold(f, Fold(f, s)) == Fold(f, s)
  {
    if s != "" {
      FoldTwice(f, s[1..]);
      FoldConcat(f, f(s[0]), Fold(f, s[1..]));
    }
  }

  lemma {:induction false} CutFold(f: char -> string, s: string)
    requires Folding(f)
    ensures Cut(Fold(f, s)) == Fold(f, Cut(s))
  {
    hide LowerChar;
    if s != "" {
      FoldOne(f, s[0]);
      if s[0] == '?' {
        assert Fold(f, s)[0] == '?';
      } else {
        CutFold(f, s[1..]);
        CutOver(f(s[0]), Fold(f, s[1..]));
        assert ([s[0]] + Cut(s[1..]))[1..] == Cut(s[1..]);
      }
    }
  }

  lemma FoldOne(f: char -> string, c: char)
    requires Folding(f)
    ensures f(c) != "" && ('?' in f(c) <==> c == '?') && ('/' in f(c) <==> c == '/')
    ensures c == '?' || c == '/' || c == '.' || c == 'w' ==> f(c) == [c]
  {
  }

  /** A character other than a slash, and then anything. */
  lemma {:induction false} HalveOver(p: string, u: string)
    requires '/' !in p
    ensures Halve(p + u) == p + Halve(u)
  {
    if p == "" {
      assert p + u == u;
    } else {
      assert (p + u)[1..] == p[1..] + u && (p + u)[0] == p[0];
      HalveOver(p[1..], u);
    }
  }

  lemma {:induction false} HalveFold(f: char -> string, s: string)
    requires Folding(f)
    ensures Halve(Fold(f, s)) == Fold(f, Halve(s))
  {
    hide LowerChar;
    if s == "" {
    } else if s[0] != '/' {
      FoldOne(f, s[0]);
      HalveFold(f, s[1..]);
      HalveOver(f(s[0]), Fold(f, s[1..]));
      FoldCons(f, s[0], Halve(s[1..]));
    } else {
      FoldSlash(f, s);
      if |s| > 1 && s[1] == '/' {
        HalveFold(f, s[2..]);
        FoldCons(f, '/', Halve(s[2..]));
      } else {
        HalveFold(f, s[1..]);
        FoldCons(f, '/', Halve(s[1..]));
      }
    }
  }

  lemma FoldCons(f: char -> string, c: char, s: string)
    ensures Fold(f, [c] + s) == f(c) + Fold(f, s)
  {
    assert ([c] + s)[1..] == s;
  }

  /** The halving of a folded text that starts with a slash. */
  lemma FoldSlash(f: char -> string, s: string)
    requires Folding(f) && s != "" && s[0] == '/'
    ensures f('/') == "/"
    ensures Halve(Fold(f, s)) == "/" + Halve(Fold(f, if |s| > 1 && s[1] == '/' then s[2..] else s[1..]))
  {
    hide LowerChar;
    FoldOne(f, '/');
    var rest := Fold(f, s[1..]);
    assert Fold(f, s) == "/" + rest && ("/" + rest)[1..] == rest;
    if |s| > 1 {
      FoldOne(f, s[1]);
      assert rest == f(s[1]) + Fold(f, s[1..][1..]) && s[1..][1..] == s[2..];
      if s[1] == '/' {
        assert ("/" + rest)[2..] == Fold(f, s[2..]);
      } else {
        assert rest[0] == f(s[1])[0] && f(s[1])[0] in f(s[1]);
      }
    }
  }

  // ---- all renames stay in the group

  lemma RenamesKeep(n: Names, f: char -> string, k: string)
    requires Charwise(n, f)
    ensures RenameGroups(n, k) == {Group(n, k)}
  {
    hide Group, Cut, Halve, Contains, Charwise;
    var k1 := WwwKey(k);
    var k2 := QueryKey(k1);
    var k3 := SlashesKey(k2);
    if WWW <= k { WwwKeeps(n, f, k[4..]); assert k == WWW + k[4..]; }
    CutKeeps(n, f, k1);
    HalveKeeps(n, f, k2);
    LowerKeeps(n, f, k3);
  }

  lemma WwwKeeps(n: Names, f: char -> string, t: string)
    requires Charwise(n, f)
    ensures Group(n, WWW + t) == Group(n, t)
  {
    hide Cut, Collapse, StripTrail, LowerChar, StripLead;
    GroupUnconditional(n, WWW + t);
    GroupUnconditional(n, t);
    FoldConcat(f, WWW, t);
    FoldWww(f);
    PrefixThrough(Fold(f, t));
    StripWww(Collapse(Cut(Fold(f, t))));
  }

  lemma FoldWww(f: char -> string)
    requires Folding(f)
    ensures Fold(f, WWW) == WWW
  {
    hide LowerChar;
    FoldOne(f, 'w');
    FoldOne(f, '.');
    assert "www."[1..] == "ww." && "ww."[1..] == "w." && "w."[1..] == "." && "."[1..] == "";
    assert Fold(f, ".") == ".";
    assert Fold(f, "w.") == "w.";
    assert Fold(f, "ww.") == "ww.";
  }

  lemma CutKeeps(n: Names, f: char -> string, k: string)
    requires Charwise(n, f)
    ensures Group(n, Cut(k)) == Group(n, k)
  {
    hide Cut, Collapse, StripTrail, StripLead, LowerChar;
    GroupUnconditional(n, k);
    GroupUnconditional(n, Cut(k));
    CutFold(f, k);
    CutHasNoQuery(Fold(f, k));
    CutNothing(Cut(Fold(f, k)));
  }

  lemma HalveKeeps(n: Names, f: char -> string, k: string)
    requires Charwise(n, f)
    ensures Group(n, Halve(k)) == Group(n, k)
  {
    hide Cut, Collapse, Halve, StripTrail, StripLead, LowerChar;
    GroupUnconditional(n, k);
    GroupUnconditional(n, Halve(k));
    HalveFold(f, k);
    CutHalve(Fold(f, k));
    CollapseHalve(Cut(Fold(f, k)));
  }

  lemma LowerKeeps(n: Names, f: char -> string, k: string)
    requires Charwise(n, f)
    ensures Group(n, Lower(n, k)) == Group(n, k)
  {
    hide Cut, Collapse, StripTrail, StripLead, LowerChar;
    FoldTwice(f, k);
    assert Lower(n, Lower(n, k)) == Lower(n, k);
  }

  /** With such a folding every name whatever is foreseen, whether idna takes it or not. */
  lemma AllForeseen(n: Names, f: char -> string, key: string)
    requires Charwise(n, f)
    ensures Foreseen(n, key) && Reach(n, key) == IdnGroups(n, key)
  {
    hide Group, RenameGroups, Folding;
    ForeseenNames(n, key);
    if !IsAscii(key) && n.idna(key).None? { RenamesKeep(n, f, key); }
  }

  function LowerOne(c: char): string { [LowerChar(c)] }

  function FoldedNames(f: char -> string): Names { Names(s => Fold(f, s), s => None) }

  /** There is such a folding: that of ASCII letters alone. */
  lemma LetterFolding()
    ensures Charwise(FoldedNames(LowerOne), LowerOne)
  {
    forall c: char ensures Fold(LowerOne, LowerOne(c)) == LowerOne(c) { assert LowerOne(c)[1..] == "" && LowerChar(LowerChar(c)) == LowerChar(c); }
    forall s: string ensures Fold(LowerOne, s) == LowerAscii(s) { FoldLetters(s); }
    assert forall c: char :: c >= 128 as char ==> LowerOne(c) == [c];
  }

  lemma {:induction false} FoldLetters(s: string)
    ensures Fold(LowerOne, s) == LowerAscii(s)
  {
    if s != "" {
      FoldLetters(s[1..]);
      LowerDrop(s, 1);
      assert LowerAscii(s) == [LowerChar(s[0])] + LowerAscii(s)[1..];
    }
  }
}
