/** A concrete meaning for the regular expressions the configuration compiler produces:
    the subset made of literal characters, escaped metacharacters, '.', and the groups
    "(.*)" and "(.?)". For this subset std::regex_match (ECMAScript grammar, no icase)
    agrees with Matches below; regexes outside it are left to the abstract engine. */
module RegexSubset {
  import opened Common

  datatype Token =
    | Lit(c: char)   // one given character
    | AnyChar        // '.'
    | AnySeq         // "(.*)"
    | AnyOpt         // "(.?)"

  /** The ECMAScript syntax characters: outside the subset unless escaped. */
  const Special: set<char> := {'^', '$', '\\', '.', '*', '+', '?', '(', ')', '[', ']', '{', '}', '|'}

  /** In the ECMAScript grammar '.' matches any character but a line terminator; for
      `char` strings, std::regex knows two. */
  predicate IsLineTerminator(c: char)
  {
    c == '\n' || c == '\r'
  }

  predicate NoLineTerminator(s: string)
  {
    forall i :: 0 <= i < |s| ==> !IsLineTerminator(s[i])
  }

  lemma NoLineTerminatorAppend(a: string, b: string)
    ensures NoLineTerminator(a + b) <==> NoLineTerminator(a) && NoLineTerminator(b)
  {
    if NoLineTerminator(a) && NoLineTerminator(b) {
      forall i | 0 <= i < |a + b| ensures !IsLineTerminator((a + b)[i]) {
        if i < |a| { assert (a + b)[i] == a[i]; } else { assert (a + b)[i] == b[i - |a|]; }
      }
    }
    if NoLineTerminator(a + b) {
      forall i | 0 <= i < |a| ensures !IsLineTerminator(a[i]) {
        assert (a + b)[i] == a[i];
      }
      forall i | 0 <= i < |b| ensures !IsLineTerminator(b[i]) {
        assert (a + b)[i + |a|] == b[i];
      }
    }
  }

  /** Full match, with the backtracking of a regex engine written as a disjunction. */
  function Matches(t: seq<Token>, s: string): bool
    decreases |t|, |s|
  {
    if t == [] then s == []
    else match t[0]
      case Lit(c) => s != [] && s[0] == c && Matches(t[1..], s[1..])
      case AnyChar => s != [] && !IsLineTerminator(s[0]) && Matches(t[1..], s[1..])
      case AnySeq =>
        Matches(t[1..], s) || (s != [] && !IsLineTerminator(s[0]) && Matches(t, s[1..]))
      case AnyOpt =>
        Matches(t[1..], s) || (s != [] && !IsLineTerminator(s[0]) && Matches(t[1..], s[1..]))
  }

  // ---------------------------------------------------------------------------------
  // An independent reading of the same tokens: the subject is cut into one piece per
  // token and every piece is one the token allows.

  predicate PieceFits(t: Token, piece: string)
  {
    match t
    case Lit(c) => piece == [c]
    case AnyChar => |piece| == 1 && NoLineTerminator(piece)
    case AnySeq => NoLineTerminator(piece)
    case AnyOpt => |piece| <= 1 && NoLineTerminator(piece)
  }

  predicate Admits(t: seq<Token>, pieces: seq<string>)
  {
    |pieces| == |t| && forall i :: 0 <= i < |t| ==> PieceFits(t[i], pieces[i])
  }

  function Concat(pieces: seq<string>): string
  {
    if pieces == [] then [] else pieces[0] + Concat(pieces[1..])
  }

  lemma AdmitsTail(t: seq<Token>, pieces: seq<string>)
    requires t != [] && Admits(t, pieces)
    ensures Admits(t[1..], pieces[1..]) && PieceFits(t[0], pieces[0])
  {
    forall i | 0 <= i < |t| - 1
      ensures PieceFits(t[1..][i], pieces[1..][i])
    {
      assert PieceFits(t[i + 1], pieces[i + 1]);
    }
  }

  lemma AdmitsCons(x: Token, t: seq<Token>, p: string, pieces: seq<string>)
    requires PieceFits(x, p) && Admits(t, pieces)
    ensures Admits([x] + t, [p] + pieces)
  {
    forall i | 0 <= i < |t| + 1
      ensures PieceFits(([x] + t)[i], ([p] + pieces)[i])
    {
      if i > 0 {
        assert ([x] + t)[i] == t[i - 1] && ([p] + pieces)[i] == pieces[i - 1];
      }
    }
  }

  /** "(.*)" in front of a matching rest also absorbs any prefix free of line
      terminators. */
  lemma {:induction false} SeqAbsorbs(t: seq<Token>, p: string, r: string)
    requires t != [] && t[0] == AnySeq && Matches(t[1..], r) && NoLineTerminator(p)
    ensures Matches(t, p + r)
    decreases |p|
  {
    if p == [] {
      assert p + r == r;
    } else {
      assert (p + r)[1..] == p[1..] + r;
      assert NoLineTerminator(p[1..]) by {
        forall i | 0 <= i < |p| - 1 ensures !IsLineTerminator(p[1..][i]) {
          assert p[1..][i] == p[i + 1];
        }
      }
      SeqAbsorbs(t, p[1..], r);
    }
  }

  /** Every cut the tokens admit is matched. */
  lemma {:induction false} AdmittedMatches(t: seq<Token>, pieces: seq<string>)
    requires Admits(t, pieces)
    ensures Matches(t, Concat(pieces))
    decreases |t|
  {
    if t != [] {
      AdmitsTail(t, pieces);
      var rest := Concat(pieces[1..]);
      AdmittedMatches(t[1..], pieces[1..]);
      var p := pieces[0];
      assert Concat(pieces) == p + rest;
      match t[0]
      case Lit(c) =>
        assert (p + rest)[1..] == rest;
      case AnyChar =>
        assert (p + rest)[1..] == rest;
        assert (p + rest)[0] == p[0];
      case AnySeq =>
        SeqAbsorbs(t, p, rest);
      case AnyOpt =>
        if p == [] {
          assert p + rest == rest;
        } else {
          assert (p + rest)[1..] == rest;
          assert (p + rest)[0] == p[0];
        }
    }
  }

  /** A piece the first token allows, in front of a cut of the rest. */
  lemma PrependPiece(t: seq<Token>, p: string, qs: seq<string>, s: string)
    requires t != [] && PieceFits(t[0], p) && Admits(t[1..], qs) && p + Concat(qs) == s
    ensures Admits(t, [p] + qs) && Concat([p] + qs) == s
  {
    AdmitsCons(t[0], t[1..], p, qs);
    assert [t[0]] + t[1..] == t;
    assert ([p] + qs)[1..] == qs;
  }

  /** One more character taken by the leading "(.*)" of a cut. */
  lemma WidenFirst(t: seq<Token>, c: char, qs: seq<string>, s: string)
    requires t != [] && t[0] == AnySeq && Admits(t, qs) && !IsLineTerminator(c) && [c] + Concat(qs) == s
    ensures Admits(t, [[c] + qs[0]] + qs[1..]) && Concat([[c] + qs[0]] + qs[1..]) == s
  {
    AdmitsTail(t, qs);
    assert NoLineTerminator([c] + qs[0]) by {
      forall i | 0 <= i < |qs[0]| + 1 ensures !IsLineTerminator(([c] + qs[0])[i]) {
        if i > 0 { assert ([c] + qs[0])[i] == qs[0][i - 1]; }
      }
    }
    assert Concat(qs) == qs[0] + Concat(qs[1..]);
    PrependPiece(t, [c] + qs[0], qs[1..], s);
  }

  /** The cut a successful match makes: one piece per token. */
  function Split(t: seq<Token>, s: string): (pieces: seq<string>)
    requires Matches(t, s)
    ensures Admits(t, pieces) && Concat(pieces) == s
    decreases |t|, |s|
  {
    if t == [] then []
    else match t[0]
      case Lit(c) =>
        var qs := Split(t[1..], s[1..]);
        assert [c] + s[1..] == s;
        PrependPiece(t, [c], qs, s);
        [[c]] + qs
      case AnyChar =>
        var qs := Split(t[1..], s[1..]);
        assert [s[0]] + s[1..] == s;
        PrependPiece(t, [s[0]], qs, s);
        [[s[0]]] + qs
      case AnySeq =>
        if Matches(t[1..], s) then
          var qs := Split(t[1..], s);
          assert "" + s == s;
          PrependPiece(t, "", qs, s);
          [""] + qs
        else
          var qs := Split(t, s[1..]);
          assert [s[0]] + s[1..] == s;
          WidenFirst(t, s[0], qs, s);
          [[s[0]] + qs[0]] + qs[1..]
      case AnyOpt =>
        if Matches(t[1..], s) then
          var qs := Split(t[1..], s);
          assert "" + s == s;
          PrependPiece(t, "", qs, s);
          [""] + qs
        else
          var qs := Split(t[1..], s[1..]);
          assert [s[0]] + s[1..] == s;
          PrependPiece(t, [s[0]], qs, s);
          [[s[0]]] + qs
  }

  /** The matcher and the cut reading agree on every subject. */
  lemma MatchesIffCut(t: seq<Token>, s: string)
    ensures Matches(t, s) <==> exists pieces :: Admits(t, pieces) && Concat(pieces) == s
  {
    if Matches(t, s) {
      var pieces := Split(t, s);
      assert Admits(t, pieces) && Concat(pieces) == s;
    }
    if exists pieces :: Admits(t, pieces) && Concat(pieces) == s {
      var pieces :| Admits(t, pieces) && Concat(pieces) == s;
      AdmittedMatches(t, pieces);
    }
  }

  /** A matched subject ends with the character a final literal token names. */
  lemma {:induction false} MatchesLastLit(t: seq<Token>, s: string, c: char)
    requires t != [] && t[|t| - 1] == Lit(c) && Matches(t, s)
    ensures s != [] && s[|s| - 1] == c
    decreases |t|, |s|
  {
    if |t| > 1 {
      assert t[1..][|t[1..]| - 1] == Lit(c);
      match t[0]
      case Lit(_) =>
        MatchesLastLit(t[1..], s[1..], c);
      case AnyChar =>
        MatchesLastLit(t[1..], s[1..], c);
      case AnySeq =>
        if Matches(t[1..], s) {
          MatchesLastLit(t[1..], s, c);
        } else {
          MatchesLastLit(t, s[1..], c);
        }
      case AnyOpt =>
        if Matches(t[1..], s) {
          MatchesLastLit(t[1..], s, c);
        } else {
          MatchesLastLit(t[1..], s[1..], c);
        }
    }
  }

  /** The number of tokens that consume exactly one character. */
  function MinLength(t: seq<Token>): nat
  {
    if t == [] then 0 else (if t[0].Lit? || t[0].AnyChar? then 1 else 0) + MinLength(t[1..])
  }

  /** A matched subject is at least as long as the tokens that must each take one
      character. */
  lemma {:induction false} MatchesMinLength(t: seq<Token>, s: string)
    requires Matches(t, s)
    ensures |s| >= MinLength(t)
    decreases |t|, |s|
  {
    if t != [] {
      match t[0]
      case Lit(_) =>
        MatchesMinLength(t[1..], s[1..]);
      case AnyChar =>
        MatchesMinLength(t[1..], s[1..]);
      case AnySeq =>
        if Matches(t[1..], s) { MatchesMinLength(t[1..], s); } else { MatchesMinLength(t, s[1..]); }
      case AnyOpt =>
        if Matches(t[1..], s) { MatchesMinLength(t[1..], s); } else { MatchesMinLength(t[1..], s[1..]); }
    }
  }

  /** The tokens that spell a string character by character. */
  function Lits(w: string): (t: seq<Token>)
    ensures |t| == |w|
  {
    if w == [] then [] else [Lit(w[0])] + Lits(w[1..])
  }

  /** Literal tokens in front consume exactly their own characters. */
  lemma {:induction false} MatchesLits(w: string, t: seq<Token>, s: string)
    ensures Matches(Lits(w) + t, s) <==> |s| >= |w| && s[..|w|] == w && Matches(t, s[|w|..])
    decreases |w|
  {
    if w == [] {
      assert Lits(w) + t == t;
      assert s[..0] == [] && s[0..] == s;
    } else {
      var u := Lits(w) + t;
      assert u[0] == Lit(w[0]) && u[1..] == Lits(w[1..]) + t;
      if s != [] {
        assert Matches(u, s) == (s[0] == w[0] && Matches(Lits(w[1..]) + t, s[1..]));
        MatchesLits(w[1..], t, s[1..]);
        if |s| >= |w| {
          assert s[1..][|w| - 1..] == s[|w|..];
          PrefixCons(s, w);
        }
      }
    }
  }

  lemma PrefixCons(s: string, w: string)
    requires w != [] && |s| >= |w|
    ensures s[..|w|] == w <==> s[0] == w[0] && s[1..][..|w| - 1] == w[1..]
  {
    assert s[..|w|] == [s[0]] + s[1..][..|w| - 1];
    assert w == [w[0]] + w[1..];
  }

  /** "(.*)" in front: the subject splits into a prefix free of line terminators and a
      rest the following tokens match. */
  lemma {:induction false} MatchesAnySeqFront(t: seq<Token>, s: string)
    ensures Matches([AnySeq] + t, s)
            <==> exists k :: 0 <= k <= |s| && NoLineTerminator(s[..k]) && Matches(t, s[k..])
    decreases |s|
  {
    var u := [AnySeq] + t;
    assert u[0] == AnySeq && u[1..] == t;
    if Matches(u, s) {
      if Matches(t, s) {
        assert s[..0] == [] && s[0..] == s;
        assert NoLineTerminator(s[..0]) && Matches(t, s[0..]);
      } else {
        MatchesAnySeqFront(t, s[1..]);
        var k :| 0 <= k <= |s[1..]| && NoLineTerminator(s[1..][..k]) && Matches(t, s[1..][k..]);
        var front := s[..k + 1];
        assert front == [s[0]] + s[1..][..k];
        assert NoLineTerminator(front) by {
          forall i | 0 <= i < k + 1 ensures !IsLineTerminator(front[i]) {
            if i > 0 { assert front[i] == s[1..][..k][i - 1]; }
          }
        }
        assert s[k + 1..] == s[1..][k..];
      }
    }
    if exists k :: 0 <= k <= |s| && NoLineTerminator(s[..k]) && Matches(t, s[k..]) {
      var k :| 0 <= k <= |s| && NoLineTerminator(s[..k]) && Matches(t, s[k..]);
      if k == 0 {
        assert s[0..] == s;
      } else {
        assert s[..k][0] == s[0];
        MatchesAnySeqFront(t, s[1..]);
        var front := s[1..][..k - 1];
        assert front == s[..k][1..];
        assert NoLineTerminator(front) by {
          forall i | 0 <= i < k - 1 ensures !IsLineTerminator(front[i]) {
            assert front[i] == s[..k][i + 1];
          }
        }
        assert s[1..][k - 1..] == s[k..];
      }
    }
  }

  // ---------------------------------------------------------------------------------
  // Regex source text for the subset, and reading it back.

  function RenderToken(t: Token): string
  {
    match t
    case Lit(c) => if c in Special then ['\\', c] else [c]
    case AnyChar => "."
    case AnySeq => "(.*)"
    case AnyOpt => "(.?)"
  }

  function Render(t: seq<Token>): string
  {
    if t == [] then [] else RenderToken(t[0]) + Render(t[1..])
  }

  function Cons(x: Token, rest: Option<seq<Token>>): Option<seq<Token>>
  {
    match rest
    case Some(t) => Some([x] + t)
    case None => None
  }

  /** The source starts with the group "(.q)". */
  predicate IsGroup(src: string, q: char)
  {
    |src| >= 4 && src[0] == '(' && src[1] == '.' && src[2] == q && src[3] == ')'
  }

  /** The tokens a regex source denotes, or None when the source leaves the subset. */
  function Parse(src: string): Option<seq<Token>>
    decreases |src|
  {
    if src == [] then Some([])
    else if IsGroup(src, '*') then Cons(AnySeq, Parse(src[4..]))
    else if IsGroup(src, '?') then Cons(AnyOpt, Parse(src[4..]))
    else if |src| >= 2 && src[0] == '\\' && src[1] in Special then Cons(Lit(src[1]), Parse(src[2..]))
    else if src[0] == '.' then Cons(AnyChar, Parse(src[1..]))
    else if src[0] in Special then None
    else Cons(Lit(src[0]), Parse(src[1..]))
  }

  /** Reading one rendered token in front of any text. */
  lemma ParseToken(x: Token, rest: string)
    ensures Parse(RenderToken(x) + rest) == Cons(x, Parse(rest))
  {
    var src := RenderToken(x) + rest;
    match x
    case Lit(c) =>
      if c in Special {
        assert src[0] == '\\' && src[1] == c && src[2..] == rest;
      } else {
        assert src[0] == c && src[1..] == rest;
      }
    case AnyChar =>
      assert src[0] == '.' && src[1..] == rest;
    case AnySeq =>
      assert IsGroup(src, '*') && src[4..] == rest;
    case AnyOpt =>
      assert IsGroup(src, '?') && !IsGroup(src, '*') && src[4..] == rest;
  }

  /** Rendering is read back exactly: Render is a right inverse of Parse. */
  lemma {:induction false} ParseRender(t: seq<Token>)
    ensures Parse(Render(t)) == Some(t)
  {
    if t != [] {
      ParseRender(t[1..]);
      ParseToken(t[0], Render(t[1..]));
      assert [t[0]] + t[1..] == t;
    }
  }

  /** regex_match for a source inside the subset; false for sources outside it, where
      this function does not model std::regex. */
  function SubsetFullMatch(src: string, subject: string): bool
  {
    match Parse(src)
    case Some(t) => Matches(t, subject)
    case None => false
  }
}
