/** `text_strip`: the cleaning applied to every table cell scraped from the
    population page. */
module Text {
  import opened PyStrings

  /** The substrings removed first, in this order. */
  const Markers: seq<string> := ["\n", "\U{A0}", " **", " *"]

  /** Applies `str.replace(m, '')` for each marker `m` in turn. */
  function RemoveMarkers(s: string, ms: seq<string>): (r: string)
    requires forall k :: 0 <= k < |ms| ==> ms[k] != []
    ensures forall c :: c in r ==> c in s
    decreases |ms|
  {
    if ms == [] then s else RemoveMarkers(RemoveAll(s, ms[0]), ms[1..])
  }

  /** A one-character marker leaves no trace of its character. */
  lemma {:induction false} RemoveMarkersDrops(s: string, ms: seq<string>, c: char)
    requires forall k :: 0 <= k < |ms| ==> ms[k] != []
    requires [c] in ms
    ensures c !in RemoveMarkers(s, ms)
    decreases |ms|
  {
    if ms[0] != [c] {
      assert [c] in ms[1..] by {
        var k :| 0 <= k < |ms| && ms[k] == [c];
        assert ms[1..][k - 1] == [c];
      }
      RemoveMarkersDrops(RemoveAll(s, ms[0]), ms[1..], c);
    }
  }

  /** Position of the first `c` in `s`. */
  function IndexOf(s: string, c: char): (i: nat)
    requires c in s
    ensures i < |s| && s[i] == c && c !in s[..i]
  {
    if s[0] == c then 0
    else
      var i := 1 + IndexOf(s[1..], c);
      assert s[..i] == [s[0]] + s[1..][..i - 1];
      i
  }

  /** `re.sub(r'\([^)]*\)', '', s)`: scanning left to right, a `(` that has a
      `)` somewhere after it is dropped together with everything up to the
      first such `)`; a `(` with no `)` after it stays. */
  function RemoveGroups(s: string): (r: string)
    ensures |r| <= |s|
    ensures forall c :: c in r ==> c in s
    decreases |s|
  {
    if s == [] then []
    else if s[0] == '(' && ')' in s then RemoveGroups(s[IndexOf(s, ')') + 1..])
    else [s[0]] + RemoveGroups(s[1..])
  }

  /** No `(` is followed, anywhere later, by a `)`: the regex finds no match. */
  predicate NoGroup(s: string)
  {
    forall i, j :: 0 <= i < j < |s| && s[i] == '(' ==> s[j] != ')'
  }

  /** After the substitution nothing the regex could match is left. */
  lemma {:induction false} RemoveGroupsLeavesNoGroup(s: string)
    ensures NoGroup(RemoveGroups(s))
    decreases |s|
  {
    if s == [] {
    } else if s[0] == '(' && ')' in s {
      RemoveGroupsLeavesNoGroup(s[IndexOf(s, ')') + 1..]);
    } else {
      var t := RemoveGroups(s[1..]);
      RemoveGroupsLeavesNoGroup(s[1..]);
      var r := [s[0]] + t;
      forall i, j | 0 <= i < j < |r| && r[i] == '(' ensures r[j] != ')' {
        if i == 0 {
          assert ')' !in s;
          assert r[j] == t[j - 1] && r[j] in t;
        } else {
          assert r[i] == t[i - 1] && r[j] == t[j - 1];
        }
      }
    }
  }

  /** On a string with nothing to match the substitution changes nothing. */
  lemma {:induction false} RemoveGroupsKeepsClean(s: string)
    requires NoGroup(s)
    ensures RemoveGroups(s) == s
    decreases |s|
  {
    if s != [] {
      if s[0] == '(' {
        assert ')' !in s by {
          forall j | 0 <= j < |s| ensures s[j] != ')' {
            if j > 0 { assert s[0] == '('; }
          }
        }
      }
      assert NoGroup(s[1..]) by {
        forall i, j | 0 <= i < j < |s[1..]| && s[1..][i] == '('
          ensures s[1..][j] != ')'
        {
          assert s[i + 1] == '(';
        }
      }
      RemoveGroupsKeepsClean(s[1..]);
      assert s == [s[0]] + s[1..];
    }
  }

  /** `text_strip(text)`: the markers, then the parenthesised groups, then
      the surrounding whitespace are removed; nothing is added. */
  function Normalize(text: string): (r: string)
    ensures forall c :: c in r ==> c in text
  {
    Strip(RemoveGroups(RemoveMarkers(text, Markers)))
  }

  /** The markers leave neither a newline nor a non-breaking space. */
  lemma MarkersDropBreaks(text: string)
    ensures '\n' !in RemoveMarkers(text, Markers)
    ensures '\U{A0}' !in RemoveMarkers(text, Markers)
  {
    assert Markers[0] == ['\n'] && Markers[1] == ['\U{A0}'];
    RemoveMarkersDrops(text, Markers, '\n');
    RemoveMarkersDrops(text, Markers, '\U{A0}');
  }

  /** A slice of a string with no group has no group. */
  lemma NoGroupSlice(g: string, i: nat, j: nat)
    requires NoGroup(g) && i <= j <= |g|
    ensures NoGroup(g[i..j])
  {
    var r := g[i..j];
    forall a, b | 0 <= a < b < |r| && r[a] == '(' ensures r[b] != ')' {
      assert r[a] == g[i + a] && r[b] == g[i + b];
    }
  }

  /** Stripping keeps only characters of its input and leaves no group. */
  lemma StripKeepsNoGroup(g: string)
    requires NoGroup(g)
    ensures NoGroup(Strip(g)) && forall c :: c in Strip(g) ==> c in g
  {
    var r := Strip(g);
    var i := Leading(g);
    NoGroupSlice(g, i, i + |r|);
    forall c | c in r ensures c in g {
      var k :| 0 <= k < |r| && r[k] == c;
      assert g[i + k] == c;
    }
  }

  /** The result of `text_strip` has no newline and no non-breaking space,
      no leading or trailing whitespace, no `(` before a `)`, and only
      characters of its input. */
  lemma NormalizeClean(text: string)
    ensures var r := Normalize(text);
      && '\n' !in r && '\U{A0}' !in r
      && (r == [] || (!IsSpace(r[0]) && !IsSpace(r[|r| - 1])))
      && NoGroup(r)
      && (forall c :: c in r ==> c in text)
  {
    var m := RemoveMarkers(text, Markers);
    MarkersDropBreaks(text);
    var g := RemoveGroups(m);
    RemoveGroupsLeavesNoGroup(m);
    StripKeepsNoGroup(g);
  }

  /** `str.replace` of a pattern whose first character is absent changes
      nothing. */
  lemma {:induction false} RemoveAllAbsentHead(s: string, p: string)
    requires p != [] && p[0] !in s
    ensures RemoveAll(s, p) == s
    decreases |s|
  {
    if |s| >= |p| {
      assert s[..|p|] != p by { assert s[..|p|][0] == s[0]; }
      assert p[0] !in s[1..] by { assert forall k :: 0 <= k < |s| - 1 ==> s[1..][k] == s[k + 1]; }
      RemoveAllAbsentHead(s[1..], p);
      assert s == [s[0]] + s[1..];
    }
  }

  /** A first character that cannot start the pattern is kept. */
  lemma RemoveAllKeep(s: string, p: string, k: nat)
    requires k < |p| <= |s| && s[k] != p[k]
    ensures RemoveAll(s, p) == [s[0]] + RemoveAll(s[1..], p)
  {
    assert s[..|p|][k] == s[k];
  }

  /** The four markers, removed one after the other. */
  lemma MarkersInTurn(s: string)
    ensures RemoveMarkers(s, Markers)
            == RemoveAll(RemoveAll(RemoveAll(RemoveAll(s, "\n"), "\U{A0}"), " **"), " *")
  {
    assert Markers[1..][1..][1..][1..] == [];
  }

  /** `text_strip` is not idempotent: dropping the group `(b)` brings a
      space next to a `*`, and only a second pass removes the pair. */
  lemma NormalizeNotIdempotent()
    ensures Normalize("a (b)*c") == "a *c"
    ensures Normalize(Normalize("a (b)*c")) == "ac"
  {
    FirstPass();
    SecondPass();
  }

  lemma FirstPass()
    ensures Normalize("a (b)*c") == "a *c"
  {
    FirstMarkers();
    FirstGroups("a (b)*c");
    StripTrimmed("a *c");
  }

  /** No marker occurs in the first example. */
  lemma FirstMarkers()
    ensures RemoveMarkers("a (b)*c", Markers) == "a (b)*c"
  {
    var s := "a (b)*c";
    RemoveAbsent(s, '\n');
    RemoveAbsent(s, '\U{A0}');
    KeepsPair(" **");
    KeepsPair(" *");
    MarkersInTurn(s);
  }

  /** Neither `" **"` nor `" *"` occurs in `"a (b)*c"`. */
  lemma KeepsPair(p: string)
    requires p == " **" || p == " *"
    ensures RemoveAll("a (b)*c", p) == "a (b)*c"
  {
    var s := "a (b)*c";
    var u := "(b)*c";
    assert s[1..] == " " + u && s[1..][1..] == u;
    RemoveAllAbsentHead(u, p);
    RemoveAllKeep(s, p, 0);
    RemoveAllKeep(s[1..], p, 1);
  }

  /** The regex drops `(b)` from the first example. */
  lemma FirstGroups(s: string)
    requires s == "a (b)*c"
    ensures RemoveGroups(s) == "a *c"
  {
    var v, u := s[1..], s[2..];
    assert v == [' '] + u && u == "(b)*c";
    KeepFirstOf(s, 'a', v);
    KeepFirstOf(v, ' ', u);
    GroupAtFront(u);
    Spelled();
  }

  lemma Spelled()
    ensures ['a'] + ([' '] + "*c") == "a *c"
  {
  }

  /** `KeepFirst` on a string given as its head and tail. */
  lemma KeepFirstOf(s: string, c: char, rest: string)
    requires s == [c] + rest && c != '('
    ensures RemoveGroups(s) == [c] + RemoveGroups(rest)
  {
    assert s[1..] == rest;
  }

  lemma GroupAtFront(u: string)
    requires u == "(b)*c"
    ensures RemoveGroups(u) == "*c"
  {
    assert IndexOf(u, ')') == 2;
    assert u[3..] == "*c";
    RemoveGroupsKeepsClean(u[3..]);
  }

  lemma SecondPass()
    ensures Normalize("a *c") == "ac"
  {
    SecondMarkers();
    assert RemoveGroups("ac") == "ac";
    StripTrimmed("ac");
  }

  /** In the second pass `" *"` is found and removed. */
  lemma SecondMarkers()
    ensures RemoveMarkers("a *c", Markers) == "ac"
  {
    var t := "a *c";
    RemoveAbsent(t, '\n');
    RemoveAbsent(t, '\U{A0}');
    SecondNoTriple();
    SecondPair();
    MarkersInTurn(t);
  }

  lemma SecondNoTriple()
    ensures RemoveAll("a *c", " **") == "a *c"
  {
    var t := "a *c";
    assert t[1..] == " *c" && t[1..][1..] == "*c";
    RemoveAllAbsentHead("*c", " **");
    RemoveAllKeep(t, " **", 0);
    RemoveAllKeep(t[1..], " **", 2);
  }

  lemma SecondPair()
    ensures RemoveAll("a *c", " *") == "ac"
  {
    var t := "a *c";
    assert t[1..] == " *c" && t[1..][..2] == " *" && t[1..][2..] == "c";
    RemoveAllAbsentHead("c", " *");
    RemoveAllKeep(t, " *", 0);
  }

  /** The cleaning loop of `text_strip`: each marker is removed from the
      current text in turn, then the groups, then the surrounding
      whitespace. */
  method TextStrip(text: string) returns (r: string)
    ensures r == Normalize(text)
  {
    var t := text;
    for i := 0 to |Markers|
      invariant RemoveMarkers(t, Markers[i..]) == RemoveMarkers(text, Markers)
    {
      assert Markers[i..][1..] == Markers[i + 1..];
      t := RemoveAll(t, Markers[i]);
    }
    r := Strip(RemoveGroups(t));
  }
}
