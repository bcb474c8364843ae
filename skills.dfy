/**
 * The skills parser of the profile handler: the comma-separated skills
 * string is split on every ',' and each piece is trimmed of surrounding
 * whitespace, exactly as `String.prototype.split` and
 * `String.prototype.trim` of ECMAScript do.
 */
module Skills {

  /** The code points ECMAScript's `trim` removes: the WhiteSpace and
      LineTerminator characters of ECMA-262. */
  predicate IsWhitespace(c: char)
  {
    || c == '\t' || c == '\n' || c == '\U{000B}' || c == '\U{000C}' || c == '\r'
    || c == ' ' || c == '\U{00A0}' || c == '\U{1680}'
    || ('\U{2000}' <= c <= '\U{200A}')
    || c == '\U{2028}' || c == '\U{2029}' || c == '\U{202F}' || c == '\U{205F}'
    || c == '\U{3000}' || c == '\U{FEFF}'
  }

  predicate AllWhitespace(s: string)
  {
    forall k :: 0 <= k < |s| ==> IsWhitespace(s[k])
  }

  /** Neither the first nor the last character is whitespace. */
  predicate IsTrimmed(s: string)
  {
    s == [] || (!IsWhitespace(s[0]) && !IsWhitespace(s[|s| - 1]))
  }

  lemma AllWhitespaceConcat(a: string, b: string)
    requires AllWhitespace(a) && AllWhitespace(b)
    ensures AllWhitespace(a + b)
  {
    forall k | 0 <= k < |a + b| ensures IsWhitespace((a + b)[k]) {
      if k < |a| { assert (a + b)[k] == a[k]; } else { assert (a + b)[k] == b[k - |a|]; }
    }
  }

  /** One step of `TrimStart`: dropping a leading whitespace character
      before a suffix that was reached by dropping whitespace only. */
  lemma DropLeadingStep(s: string, r: string)
    requires |s| > 0 && IsWhitespace(s[0]) && |r| < |s|
    requires r == s[1..][|s| - 1 - |r|..] && AllWhitespace(s[1..][..|s| - 1 - |r|])
    ensures r == s[|s| - |r|..] && AllWhitespace(s[..|s| - |r|])
  {
    var n := |s| - 1 - |r|;
    assert s[1..][n..] == s[n + 1..];
    assert s[..n + 1] == [s[0]] + s[1..][..n];
    AllWhitespaceConcat([s[0]], s[1..][..n]);
  }

  /** One step of `TrimEnd`: dropping a trailing whitespace character after a
      prefix that was reached by dropping whitespace only. */
  lemma DropTrailingStep(s: string, r: string)
    requires |s| > 0 && IsWhitespace(s[|s| - 1]) && |r| < |s|
    requires r == s[..|s| - 1][..|r|] && AllWhitespace(s[..|s| - 1][|r|..])
    ensures r == s[..|r|] && AllWhitespace(s[|r|..])
  {
    var init := s[..|s| - 1];
    assert init[..|r|] == s[..|r|];
    assert s[|r|..] == init[|r|..] + [s[|s| - 1]];
    AllWhitespaceConcat(init[|r|..], [s[|s| - 1]]);
  }

  /** Drops the leading whitespace: what is left is a suffix of `s` that does
      not start with whitespace, and everything dropped was whitespace. */
  function TrimStart(s: string): (r: string)
    ensures |r| <= |s| && r == s[|s| - |r|..]
    ensures AllWhitespace(s[..|s| - |r|])
    ensures r == [] || !IsWhitespace(r[0])
    decreases |s|
  {
    if |s| > 0 && IsWhitespace(s[0]) then
      var r := TrimStart(s[1..]);
      DropLeadingStep(s, r);
      r
    else
      s
  }

  /** Drops the trailing whitespace: what is left is a prefix of `s` that does
      not end with whitespace, and everything dropped was whitespace. */
  function TrimEnd(s: string): (r: string)
    ensures |r| <= |s| && r == s[..|r|]
    ensures AllWhitespace(s[|r|..])
    ensures r == [] || !IsWhitespace(r[|r| - 1])
    decreases |s|
  {
    if |s| > 0 && IsWhitespace(s[|s| - 1]) then
      var r := TrimEnd(s[..|s| - 1]);
      DropTrailingStep(s, r);
      r
    else
      s
  }

  lemma SuffixSlices(s: string, i: nat, n: nat)
    requires i + n <= |s|
    ensures s[i..][..n] == s[i..i + n] && s[i..][n..] == s[i + n..]
  {
  }

  /** `r` sits at position `i` of `s` with only whitespace before and after it. */
  predicate PaddedAt(s: string, i: nat, r: string)
  {
    i + |r| <= |s| && r == s[i..i + |r|] && AllWhitespace(s[..i]) && AllWhitespace(s[i + |r|..])
  }

  /** Trimming the start and then the end leaves a trimmed string ... */
  lemma TrimEndOfStartTrimmed(s: string)
    ensures IsTrimmed(TrimEnd(TrimStart(s)))
  {
    var t := TrimStart(s);
    var r := TrimEnd(t);
    assert r != [] ==> r[0] == t[0];
  }

  /** A prefix `r` of a suffix `t` of `s`, with whitespace before `t` and
      after `r`, sits in `s` with only whitespace around it. */
  lemma PaddedCompose(s: string, i: nat, t: string, r: string)
    requires i + |t| == |s| && t == s[i..] && AllWhitespace(s[..i])
    requires |r| <= |t| && r == t[..|r|] && AllWhitespace(t[|r|..])
    ensures PaddedAt(s, i, r)
  {
    SuffixSlices(s, i, |r|);
  }

  /** ... with only whitespace around it. */
  lemma TrimEndOfStartPadded(s: string)
    ensures PaddedAt(s, |s| - |TrimStart(s)|, TrimEnd(TrimStart(s)))
  {
    var t := TrimStart(s);
    PaddedCompose(s, |s| - |t|, t, TrimEnd(t));
  }

  /** `String.prototype.trim`: the result is a trimmed infix of `s` with only
      whitespace on either side of it. */
  function Trim(s: string): (r: string)
    ensures IsTrimmed(r)
    ensures exists i :: PaddedAt(s, i, r)
  {
    TrimEndOfStartTrimmed(s);
    TrimEndOfStartPadded(s);
    TrimEnd(TrimStart(s))
  }

  lemma {:induction false} TrimStartSkips(a: string, u: string)
    requires AllWhitespace(a)
    requires u == [] || !IsWhitespace(u[0])
    ensures TrimStart(a + u) == u
    decreases |a|
  {
    if a == [] {
      assert a + u == u;
    } else {
      assert (a + u)[0] == a[0];
      assert (a + u)[1..] == a[1..] + u;
      TrimStartSkips(a[1..], u);
    }
  }

  lemma {:induction false} TrimEndSkips(u: string, b: string)
    requires AllWhitespace(b)
    requires u == [] || !IsWhitespace(u[|u| - 1])
    ensures TrimEnd(u + b) == u
    decreases |b|
  {
    if b == [] {
      assert u + b == u;
    } else {
      var w := u + b;
      assert w[|w| - 1] == b[|b| - 1];
      assert w[..|w| - 1] == u + b[..|b| - 1];
      TrimEndSkips(u, b[..|b| - 1]);
    }
  }

  /** Uniqueness: whenever `s` is a trimmed string `t` surrounded by
      whitespace only, `Trim(s)` is `t`. With the existence half in the
      contract of `Trim`, this determines `Trim` completely. */
  lemma {:induction false} TrimUnique(s: string, a: string, t: string, b: string)
    requires s == a + t + b
    requires AllWhitespace(a) && AllWhitespace(b) && IsTrimmed(t)
    ensures Trim(s) == t
  {
    if t == [] {
      assert s == a + b;
      assert AllWhitespace(a + b) by {
        forall k | 0 <= k < |a + b| ensures IsWhitespace((a + b)[k]) {
          if k >= |a| { assert (a + b)[k] == b[k - |a|]; }
        }
      }
      assert a + b == (a + b) + [];
      TrimStartSkips(a + b, []);
      assert TrimStart(s) == [];
    } else {
      assert s == a + (t + b);
      assert (t + b)[0] == t[0];
      TrimStartSkips(a, t + b);
      TrimEndSkips(t, b);
    }
  }

  /** Trimming twice is trimming once. */
  lemma TrimIdempotent(s: string)
    ensures Trim(Trim(s)) == Trim(s)
  {
    var t := Trim(s);
    assert t == [] + t + [];
    TrimUnique(t, [], t, []);
  }

  /** The number of times `c` occurs in `s`. */
  function Occurrences(s: string, c: char): nat
  {
    if s == [] then 0 else (if s[0] == c then 1 else 0) + Occurrences(s[1..], c)
  }

  /** `s.split(',')`: one piece more than there are commas, no piece holds a
      comma, and empty pieces are kept. */
  function SplitComma(s: string): (parts: seq<string>)
    ensures |parts| == Occurrences(s, ',') + 1
    ensures forall k :: 0 <= k < |parts| ==> ',' !in parts[k]
    decreases |s|
  {
    if s == [] then
      [""]
    else
      var rest := SplitComma(s[1..]);
      if s[0] == ',' then [""] + rest
      else [[s[0]] + rest[0]] + rest[1..]
  }

  /** `parts.join(',')`. */
  function JoinComma(parts: seq<string>): string
    requires |parts| > 0
  {
    if |parts| == 1 then parts[0] else parts[0] + "," + JoinComma(parts[1..])
  }

  /** Joining the pieces with ',' gives the input back. */
  lemma {:induction false} JoinSplit(s: string)
    ensures JoinComma(SplitComma(s)) == s
    decreases |s|
  {
    if s != [] {
      var rest := SplitComma(s[1..]);
      JoinSplit(s[1..]);
      assert s == [s[0]] + s[1..];
      if s[0] == ',' {
        assert ([""] + rest)[1..] == rest;
      } else {
        var parts := [[s[0]] + rest[0]] + rest[1..];
        assert parts[1..] == rest[1..];
        if |rest| > 1 {
          assert JoinComma(rest) == rest[0] + "," + JoinComma(rest[1..]);
          assert JoinComma(parts) == [s[0]] + (rest[0] + "," + JoinComma(rest[1..]));
        }
      }
    }
  }

  /** Uniqueness: comma-free pieces that join to `s` are exactly the pieces
      `SplitComma` finds, so splitting undoes joining. */
  lemma {:induction false} SplitUnique(s: string, parts: seq<string>)
    requires |parts| > 0
    requires forall k :: 0 <= k < |parts| ==> ',' !in parts[k]
    requires JoinComma(parts) == s
    ensures SplitComma(s) == parts
    decreases |s|
  {
    if |parts| > 1 {
      assert |JoinComma(parts)| > 0;
      assert s[|parts[0]|] == ',';
    }
    if s == [] {
      assert |parts| == 1;
    } else if parts[0] == [] {
      assert |parts| > 1;
      assert s == "," + JoinComma(parts[1..]);
      assert s[1..] == JoinComma(parts[1..]);
      SplitUnique(s[1..], parts[1..]);
      assert [""] + parts[1..] == parts;
    } else {
      var head := parts[0];
      assert s[0] == head[0];
      assert ',' != head[0] by { assert head[0] in head; }
      var parts' := [head[1..]] + parts[1..];
      assert parts'[1..] == parts[1..];
      forall k | 0 <= k < |parts'| ensures ',' !in parts'[k] {
        if k == 0 {
          assert forall c :: c in head[1..] ==> c in head;
        } else {
          assert parts'[k] == parts[k];
        }
      }
      if |parts| == 1 {
        assert JoinComma(parts') == s[1..];
      } else {
        assert JoinComma(parts') == head[1..] + "," + JoinComma(parts[1..]);
        assert s == head + "," + JoinComma(parts[1..]);
        assert JoinComma(parts') == s[1..];
      }
      SplitUnique(s[1..], parts');
      assert [s[0]] + head[1..] == head;
      assert [head] + parts[1..] == parts;
    }
  }

  /** The stored skills: `skills.split(',').map((s) => s.trim())`. As many
      skills as there are commas plus one, none with surrounding whitespace. */
  function ParseSkills(s: string): (skills: seq<string>)
    ensures |skills| == Occurrences(s, ',') + 1
    ensures forall k :: 0 <= k < |skills| ==> IsTrimmed(skills[k])
  {
    var parts := SplitComma(s);
    seq(|parts|, k requires 0 <= k < |parts| => Trim(parts[k]))
  }

  /** The k-th skill parsed from comma-free pieces joined by ',' is the k-th
      piece trimmed. */
  lemma ParseSkillsOfPieces(pieces: seq<string>, k: nat)
    requires |pieces| > 0 && k < |pieces|
    requires forall j :: 0 <= j < |pieces| ==> ',' !in pieces[j]
    ensures |ParseSkills(JoinComma(pieces))| == |pieces|
    ensures ParseSkills(JoinComma(pieces))[k] == Trim(pieces[k])
  {
    var s := JoinComma(pieces);
    SplitUnique(s, pieces);
    assert ParseSkills(s) == seq(|pieces|, j requires 0 <= j < |pieces| => Trim(pieces[j]));
  }

  /** Trimming the three pieces of the example: one bare, one with a
      leading space, one with a trailing space. */
  lemma TrimBareExample(w: string)
    requires w == "html"
    ensures Trim(w) == "html"
  {
    assert w == [] + "html" + [];
    TrimUnique(w, [], "html", []);
  }

  lemma TrimLeadingExample(w: string)
    requires w == " css"
    ensures Trim(w) == "css"
  {
    assert w == " " + "css" + [];
    TrimUnique(w, " ", "css", []);
  }

  lemma TrimTrailingExample(w: string)
    requires w == "node "
    ensures Trim(w) == "node"
  {
    assert w == [] + "node" + " ";
    TrimUnique(w, [], "node", " ");
  }

  /** A list of three is the display of its elements. */
  lemma SeqOfThree(s: seq<string>)
    requires |s| == 3
    ensures s == [s[0], s[1], s[2]]
  {
  }

  /** An example: "html, css,node " is stored as ["html", "css", "node"]. */
  lemma SkillsExample(input: string)
    requires input == "html, css,node "
    ensures ParseSkills(input) == ["html", "css", "node"]
  {
    var pieces := ["html", " css", "node "];
    assert pieces[1..][1..] == ["node "];
    assert JoinComma(pieces[1..]) == " css" + "," + "node ";
    assert JoinComma(pieces) == input;
    forall j | 0 <= j < |pieces| ensures ',' !in pieces[j] {
    }
    ParseSkillsOfPieces(pieces, 0);
    ParseSkillsOfPieces(pieces, 1);
    ParseSkillsOfPieces(pieces, 2);
    TrimBareExample(pieces[0]);
    TrimLeadingExample(pieces[1]);
    TrimTrailingExample(pieces[2]);
    var skills := ParseSkills(input);
    assert |skills| == 3;
    SeqOfThree(skills);
    assert skills[0] == "html" && skills[1] == "css" && skills[2] == "node";
  }
}
