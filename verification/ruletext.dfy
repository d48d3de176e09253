/** Rules as text, as the federated clients receive and report them
    (fedpopper/client2.py, fedpopper/client3.py,
    fedpopper2clients/client1.py, which share these helpers): popper's
    `Clause.to_code`, the clients' `parse_clause`, the report format
    `head :- body.`, and `transform_rule_to_tester_format`, which reads a
    rule back with the regular expression `\w+\(.*?\)`. */
module RuleText {
  import opened Wrappers
  import opened Strings
  import opened Core

  // ---------------------------------------------------------------------------
  // parse_clause
  // ---------------------------------------------------------------------------

  /** The stripped code without one trailing '.'. */
  function Unterminated(code: string): (r: string)
    ensures |r| <= |code|
  {
    var c := Strip(code);
    if EndsWith(c, ".") then c[..|c| - 1] else c
  }

  function StripAll(xs: seq<string>): (r: seq<string>)
    ensures |r| == |xs| && forall i :: 0 <= i < |xs| ==> r[i] == Strip(xs[i])
  {
    seq(|xs|, i requires 0 <= i < |xs| => Strip(xs[i]))
  }

  /** `parse_clause`: the head and the stripped comma-separated body pieces
      of `head :- body`, or the whole text and no body without ":-". More
      than one ":-" fails to unpack. */
  function ParseClause(code: string): (r: Result<(string, seq<string>)>)
    ensures r.Err? <==> |SplitOn(Unterminated(code), ":-")| > 2
    ensures r.Err? ==> r.error == ValueError
    ensures r.Ok? ==> (|r.value.1| == 0 <==> !Contains(Unterminated(code), ":-"))
  {
    var c := Unterminated(code);
    SplitOnCount(c, ":-");
    if Contains(c, ":-") then
      var parts := SplitOn(c, ":-");
      if |parts| != 2 then Err(ValueError)
      else Ok((Strip(parts[0]), StripAll(SplitOn(parts[1], ","))))
    else Ok((Strip(c), []))
  }

  /** The report format of a rule, `head :- b1, b2.` (`rule_to_str` of
      `save_client_result`). */
  function RuleLine(head: string, body: seq<string>): string {
    head + " :- " + Join(body, ", ") + "."
  }

  function Spaced(ps: seq<string>): (r: seq<string>)
    ensures |r| == |ps| && forall i :: 0 <= i < |ps| ==> r[i] == " " + ps[i]
  {
    seq(|ps|, i requires 0 <= i < |ps| => " " + ps[i])
  }

  lemma {:induction false} JoinSpaced(ps: seq<string>)
    requires |ps| >= 1
    ensures " " + Join(ps, ", ") == Join(Spaced(ps), ",")
    decreases |ps|
  {
    if |ps| > 1 {
      JoinSpaced(ps[1..]);
      assert Spaced(ps)[1..] == Spaced(ps[1..]);
      JoinCons(ps[0], ps[1..], ", ");
      JoinCons(" " + ps[0], Spaced(ps[1..]), ",");
      assert Spaced(ps) == [" " + ps[0]] + Spaced(ps[1..]);
    }
  }

  /** The body text of a reported rule splits back into its pieces. */
  lemma BodyPieces(ps: seq<string>)
    requires |ps| >= 1
    requires forall i :: 0 <= i < |ps| ==> ',' !in ps[i] && IsStripped(ps[i])
    ensures StripAll(SplitOn(" " + Join(ps, ", "), ",")) == ps
  {
    JoinSpaced(ps);
    SpacedPieces(ps, ",");
    StripSpaced(ps);
  }

  lemma SpacedPieces(ps: seq<string>, comma: string)
    requires comma == "," && |ps| >= 1
    requires forall i :: 0 <= i < |ps| ==> ',' !in ps[i]
    ensures SplitOn(Join(Spaced(ps), comma), comma) == Spaced(ps)
  {
    assert forall i :: 0 <= i < |ps| ==> comma[0] !in Spaced(ps)[i];
    SplitJoin(Spaced(ps), comma);
  }

  lemma StripSpaced(ps: seq<string>)
    requires forall i :: 0 <= i < |ps| ==> IsStripped(ps[i])
    ensures StripAll(Spaced(ps)) == ps
  {
    forall i | 0 <= i < |ps| ensures Strip(" " + ps[i]) == ps[i] {
      StripPadded(ps[i]);
    }
  }

  /** `parse_clause` reads back the head and body pieces of a reported
      rule, when neither holds ':' and the pieces hold no ',' and no
      surrounding blanks. */
  lemma ParseRuleLine(h: string, ps: seq<string>)
    requires |h| > 0 && IsStripped(h) && ':' !in h
    requires |ps| >= 1
    requires forall i :: 0 <= i < |ps| ==> ',' !in ps[i] && ':' !in ps[i] && IsStripped(ps[i])
    ensures ParseClause(RuleLine(h, ps)) == Ok((h, ps))
  {
    var b := Join(ps, ", ");
    var c := Unterminated(RuleLine(h, ps));
    assert c == (h + " ") + ":-" + (" " + b) by {
      RuleLineUnterminated(h, b);
    }
    assert SplitOn(c, ":-") == [h + " ", " " + b] && Contains(c, ":-") by {
      JoinNoChar(ps, ", ", ':');
      assert ':' !in " " + b;
      HeadBodySplit(h + " ", " " + b);
    }
    assert Strip(h + " ") == h by {
      StripPadded(h);
    }
    assert StripAll(SplitOn(" " + b, ",")) == ps by {
      BodyPieces(ps);
    }
  }

  /** The stripped report line loses only its final '.'. */
  lemma RuleLineUnterminated(h: string, b: string)
    requires |h| > 0 && IsStripped(h)
    ensures Unterminated(h + " :- " + b + ".") == (h + " ") + ":-" + (" " + b)
  {
    var code := h + " :- " + b + ".";
    assert code[0] == h[0] && code[|code| - 1] == '.';
    StripOfStripped(code);
    assert code[|code| - 1..] == ".";
    assert code[..|code| - 1] == (h + " ") + ":-" + (" " + b);
  }

  /** Text with a single ":-" splits around it. */
  lemma HeadBodySplit(a: string, b: string)
    requires ':' !in a && ':' !in b
    ensures SplitOn(a + ":-" + b, ":-") == [a, b]
    ensures Contains(a + ":-" + b, ":-")
  {
    SplitOnAfterPiece(a, ":-", b);
    SplitOnWithoutSep(b, ":-");
    SplitOnCount(a + ":-" + b, ":-");
  }

  // ---------------------------------------------------------------------------
  // re.findall(r'\w+\(.*?\)', text)
  // ---------------------------------------------------------------------------

  /** The length of the run of word characters that starts `s`. */
  function WordRun(s: string): (n: nat)
    ensures n <= |s|
    ensures forall i :: 0 <= i < n ==> IsWordChar(s[i])
    ensures n < |s| ==> !IsWordChar(s[n])
    decreases |s|
  {
    if |s| > 0 && IsWordChar(s[0]) then 1 + WordRun(s[1..]) else 0
  }

  /** Where `.*?\)` stops: the first ')', unless a line break comes first
      (`.` does not match one). */
  function CloseAt(s: string): (r: Option<nat>)
    ensures r.Some? ==> r.value < |s| && s[r.value] == ')'
    ensures r.Some? ==> forall i :: 0 <= i < r.value ==> s[i] != ')' && s[i] != '\n'
    ensures r.None? ==> forall k :: 0 <= k < |s| && s[k] == ')' ==> exists i :: 0 <= i < k && s[i] == '\n'
    decreases |s|
  {
    if |s| == 0 then None
    else if s[0] == ')' then Some(0)
    else if s[0] == '\n' then None
    else
      match CloseAt(s[1..])
      case Some(k) => Some(k + 1)
      case None =>
        assert forall k :: 1 <= k < |s| ==> s[k] == s[1..][k - 1];
        None
  }

  /** The length of the match of `\w+\(.*?\)` at the start of `s`: a
      maximal run of word characters must be followed by '(', and then the
      first ')'. Backtracking the run cannot help, since a shorter run is
      followed by a word character. */
  function MatchAt(s: string): (r: Option<nat>)
    ensures r.Some? ==> 4 <= r.value + 1 && r.value <= |s| && IsWordChar(s[0]) && s[r.value - 1] == ')'
    ensures |s| > 0 && !IsWordChar(s[0]) ==> r.None?
  {
    var n := WordRun(s);
    if 0 < n < |s| && s[n] == '(' then
      match CloseAt(s[n + 1..])
      case Some(k) => Some(n + 1 + k + 1)
      case None => None
    else None
  }

  /** `re.findall`: scan left to right, take each match and resume after
      it, or move on by one character. */
  function FindLiterals(s: string): (r: seq<string>)
    ensures forall i :: 0 <= i < |r| ==> |r[i]| >= 3 && IsWordChar(r[i][0]) && r[i][|r[i]| - 1] == ')'
    decreases |s|
  {
    if |s| == 0 then []
    else
      match MatchAt(s)
      case Some(e) => [s[..e]] + FindLiterals(s[e..])
      case None => FindLiterals(s[1..])
  }

  predicate AllWordChars(p: string) {
    forall i :: 0 <= i < |p| ==> IsWordChar(p[i])
  }

  lemma {:induction false} WordRunOf(p: string, t: string)
    requires AllWordChars(p)
    requires |t| > 0 && !IsWordChar(t[0])
    ensures WordRun(p + t) == |p|
    decreases |p|
  {
    if |p| > 0 {
      assert (p + t)[1..] == p[1..] + t;
      WordRunOf(p[1..], t);
    } else {
      assert p + t == t;
    }
  }

  lemma {:induction false} CloseAtOf(b: string, rest: string)
    requires ')' !in b && '\n' !in b
    ensures CloseAt(b + ")" + rest) == Some(|b|)
    decreases |b|
  {
    if |b| > 0 {
      assert (b + ")" + rest)[1..] == b[1..] + ")" + rest;
      assert b[0] in b;
      CloseAtOf(b[1..], rest);
    }
  }

  /** The text `p(b)` of a literal, followed by anything, matches exactly
      up to its ')'. */
  lemma MatchOfCall(p: string, b: string, rest: string)
    requires |p| > 0 && AllWordChars(p)
    requires ')' !in b && '\n' !in b
    ensures MatchAt(p + "(" + b + ")" + rest) == Some(|p| + |b| + 2)
  {
    var s := p + "(" + b + ")" + rest;
    assert s == p + ("(" + b + ")" + rest);
    WordRunOf(p, "(" + b + ")" + rest);
    assert s[|p| + 1..] == b + ")" + rest;
    CloseAtOf(b, rest);
  }

  /** The texts `p(b)` of literals whose predicates are words and whose
      argument texts hold no ')' or line break. */
  predicate IsCall(t: string) {
    exists n :: 0 < n < |t| - 1 && Call(t, n)
  }

  predicate Call(t: string, n: int) {
    && 0 < n < |t| - 1
    && AllWordChars(t[..n]) && t[n] == '(' && t[|t| - 1] == ')'
    && ')' !in t[n + 1..|t| - 1] && '\n' !in t[n + 1..|t| - 1]
  }

  /** A literal text at the start is found first, and the search resumes
      right after it. */
  lemma FindCallThen(t: string, rest: string)
    requires IsCall(t)
    ensures FindLiterals(t + rest) == [t] + FindLiterals(rest)
  {
    var n :| 0 < n < |t| - 1 && Call(t, n);
    var p, b := t[..n], t[n + 1..|t| - 1];
    assert t == p + "(" + b + ")";
    MatchOfCall(p, b, rest);
    var s := t + rest;
    assert s[..|t|] == t && s[|t|..] == rest;
  }

  /** Characters that are not word characters are skipped. */
  lemma {:induction false} SkipSeparator(sep: string, rest: string)
    requires forall i :: 0 <= i < |sep| ==> !IsWordChar(sep[i])
    ensures FindLiterals(sep + rest) == FindLiterals(rest)
    decreases |sep|
  {
    if |sep| > 0 {
      assert (sep + rest)[0] == sep[0];
      assert (sep + rest)[1..] == sep[1..] + rest;
      SkipSeparator(sep[1..], rest);
    } else {
      assert sep + rest == rest;
    }
  }

  /** `findall` over literal texts joined by a separator of non-word
      characters gives back the texts. */
  lemma {:induction false} FindJoinedCalls(ts: seq<string>, sep: string)
    requires forall i :: 0 <= i < |sep| ==> !IsWordChar(sep[i])
    requires forall i :: 0 <= i < |ts| ==> IsCall(ts[i])
    ensures FindLiterals(Join(ts, sep)) == ts
    decreases |ts|
  {
    if |ts| == 1 {
      FindCallThen(ts[0], "");
      assert ts[0] + "" == ts[0];
    } else if |ts| > 1 {
      var rest := Join(ts[1..], sep);
      FindJoinedCalls(ts[1..], sep);
      assert Join(ts, sep) == ts[0] + (sep + rest);
      FindCallThen(ts[0], sep + rest);
      SkipSeparator(sep, rest);
      assert ts == [ts[0]] + ts[1..];
    }
  }

  // ---------------------------------------------------------------------------
  // Clause.to_code and transform_rule_to_tester_format
  // ---------------------------------------------------------------------------

  /** `Literal.from_string` of every text, failing on the first that does
      not parse. */
  function ParseAll(ts: seq<string>): (r: Result<seq<Literal>>)
    ensures r.Ok? <==> forall i :: 0 <= i < |ts| ==> FromString(ts[i]).Ok?
    ensures r.Ok? ==> |r.value| == |ts|
    ensures r.Err? ==> r.error == ValueError
    decreases |ts|
  {
    if |ts| == 0 then Ok([])
    else
      var l := FromString(ts[0]);
      var rest := ParseAll(ts[1..]);
      assert forall i :: 1 <= i < |ts| ==> ts[i] == ts[1..][i - 1];
      if l.Err? || rest.Err? then Err(ValueError)
      else Ok([l.value] + rest.value)
  }

  /** Each parsed literal is what `Literal.from_string` gives for the text at
      the same position. */
  lemma {:induction false} ParseAllValues(ts: seq<string>)
    requires ParseAll(ts).Ok?
    ensures forall i :: 0 <= i < |ts| ==> FromString(ts[i]) == Ok(ParseAll(ts).value[i])
    decreases |ts|
  {
    if |ts| > 0 {
      assert ts == [ts[0]] + ts[1..];
      var rest := ParseAll(ts[1..]);
      var vs := ParseAll(ts).value;
      assert vs == [FromString(ts[0]).value] + rest.value;
      ParseAllValues(ts[1..]);
      forall i | 1 <= i < |ts|
        ensures FromString(ts[i]) == Ok(vs[i])
      {
        assert ts[i] == ts[1..][i - 1];
        assert vs[i] == rest.value[i - 1];
      }
    }
  }

  /** `transform_rule_to_tester_format`: exactly one ":-" is required; the
      head is parsed from the stripped text before it and the body from
      each `\w+\(.*?\)` match after it; any failure gives `None`. */
  function Transform(rule: string): (r: Option<Clause>)
    ensures r.Some? ==> |SplitOn(rule, ":-")| == 2 && r.value.head.Some?
    ensures !Contains(rule, ":-") ==> r.None?
  {
    SplitOnCount(rule, ":-");
    var parts := SplitOn(rule, ":-");
    if |parts| != 2 then None
    else
      var head := FromString(Strip(parts[0]));
      var body := ParseAll(FindLiterals(Strip(parts[1])));
      if head.Err? || body.Err? then None
      else Some(Clause(Some(head.value), body.value))
  }

  /** `Literal.to_code` of every literal; one with an argument that is not a
      string makes `join` fail. */
  function Codes(ls: seq<Literal>): (r: Result<seq<string>>)
    ensures r.Ok? <==> forall i :: 0 <= i < |ls| ==> ToCode(ls[i]).Some?
    ensures r.Ok? ==> |r.value| == |ls| && forall i :: 0 <= i < |ls| ==> ToCode(ls[i]) == Some(r.value[i])
    ensures r.Err? ==> r.error == TypeError
    decreases |ls|
  {
    if |ls| == 0 then Ok([])
    else
      var c := ToCode(ls[0]);
      var rest := Codes(ls[1..]);
      assert forall i :: 1 <= i < |ls| ==> ls[i] == ls[1..][i - 1];
      if c.None? || rest.Err? then Err(TypeError)
      else Ok([c.value] + rest.value)
  }

  /** `Clause.to_code`: `head:-b1,b2`, with nothing before ":-" for a
      headless clause. */
  function ClauseCode(c: Clause): (r: Result<string>)
    ensures r.Ok? <==> Codes(c.body).Ok? && (c.head.Some? ==> ToCode(c.head.value).Some?)
  {
    var head := match c.head case None => Some("") case Some(h) => ToCode(h);
    var body := Codes(c.body);
    if head.None? || body.Err? then Err(TypeError)
    else Ok(head.value + ":-" + Join(body.value, ","))
  }

  /** Literals whose text survives the trip through a rule string: string
      arguments, at least one, and names free of the characters that the
      parsers split or stop on. */
  predicate Printable(l: Literal) {
    && AllSyms(l.arguments) && |l.arguments| >= 1
    && |l.pred| > 0 && AllWordChars(l.pred)
    && forall i :: 0 <= i < |l.arguments| ==> SafeName(l.arguments[i].s)
  }

  predicate SafeName(s: string) {
    '(' !in s && ')' !in s && ',' !in s && ':' !in s && '\n' !in s
  }

  /** The text of a printable literal is a call with no ':'. */
  lemma CodeShape(l: Literal)
    requires Printable(l)
    ensures ToCode(l).Some?
    ensures IsCall(ToCode(l).value) && ':' !in ToCode(l).value
    ensures IsStripped(ToCode(l).value)
  {
    var texts := SymTexts(l.arguments);
    var b := Join(texts, ",");
    JoinNoChar(texts, ",", ')');
    JoinNoChar(texts, ",", '\n');
    JoinNoChar(texts, ",", ':');
    var t := l.pred + "(" + b + ")";
    assert ToCode(l) == Some(t);
    assert t[..|l.pred|] == l.pred && t[|l.pred| + 1..|t| - 1] == b;
    assert Call(t, |l.pred|);
    assert l.pred[0] == t[0];
  }

  lemma CodesShape(ls: seq<Literal>)
    requires forall i :: 0 <= i < |ls| ==> Printable(ls[i])
    ensures Codes(ls).Ok?
    ensures forall i :: 0 <= i < |ls| ==> IsCall(Codes(ls).value[i]) && ':' !in Codes(ls).value[i]
  {
    forall i | 0 <= i < |ls| ensures ToCode(ls[i]).Some? && IsCall(ToCode(ls[i]).value) && ':' !in ToCode(ls[i]).value {
      CodeShape(ls[i]);
    }
  }

  /** A joined body of literal texts is already stripped. */
  lemma JoinedCallsStripped(ts: seq<string>)
    requires forall i :: 0 <= i < |ts| ==> IsCall(ts[i])
    ensures Strip(Join(ts, ",")) == Join(ts, ",")
  {
    if |ts| > 0 {
      JoinEnds(ts, ",");
    }
    var j := Join(ts, ",");
    assert IsStripped(j) by {
      if |j| > 0 {
        assert |ts| > 0;
        var n0 :| 0 < n0 < |ts[0]| - 1 && Call(ts[0], n0);
        assert ts[0][..n0][0] == ts[0][0];
        assert IsWordChar(j[0]);
        assert !IsSpace(j[0]);
      }
    }
    StripOfStripped(j);
  }

  /** A join starts as its first piece and ends as its last. */
  lemma {:induction false} JoinEnds(ts: seq<string>, sep: string)
    requires |ts| > 0 && forall i :: 0 <= i < |ts| ==> |ts[i]| > 0
    ensures |Join(ts, sep)| > 0
    ensures Join(ts, sep)[0] == ts[0][0]
    ensures Join(ts, sep)[|Join(ts, sep)| - 1] == ts[|ts| - 1][|ts[|ts| - 1]| - 1]
    decreases |ts|
  {
    if |ts| > 1 {
      JoinEnds(ts[1..], sep);
    }
  }

  /** Reading a printable clause's text back gives the same head and body,
      literal by literal (compared by predicate and arguments). */
  lemma TransformClauseCode(c: Clause)
    requires c.head.Some? && Printable(c.head.value)
    requires forall i :: 0 <= i < |c.body| ==> Printable(c.body[i])
    ensures ClauseCode(c).Ok?
    ensures Transform(ClauseCode(c).value).Some?
    ensures var d := Transform(ClauseCode(c).value).value;
            && Key(d.head.value) == Key(c.head.value)
            && |d.body| == |c.body|
            && forall i :: 0 <= i < |c.body| ==> Key(d.body[i]) == Key(c.body[i])
  {
    var h := c.head.value;
    CodeShape(h);
    CodesShape(c.body);
    var ht := ToCode(h).value;
    var ts := Codes(c.body).value;
    var bt := Join(ts, ",");
    assert ClauseCode(c) == Ok(ht + ":-" + bt);
    assert SplitOn(ht + ":-" + bt, ":-") == [ht, bt] by {
      JoinNoChar(ts, ",", ':');
      HeadBodySplit(ht, bt);
    }
    assert Strip(ht) == ht by {
      StripOfStripped(ht);
    }
    assert FindLiterals(Strip(bt)) == ts by {
      JoinedCallsStripped(ts);
      assert !IsWordChar(',');
      FindJoinedCalls(ts, ",");
    }
    TransformLiterals(h, c.body, ts);
    TransformOfParts(ht + ":-" + bt, ht, bt);
  }

  lemma TransformOfParts(rule: string, a: string, b: string)
    requires SplitOn(rule, ":-") == [a, b]
    requires FromString(Strip(a)).Ok? && ParseAll(FindLiterals(Strip(b))).Ok?
    ensures Transform(rule) == Some(Clause(Some(FromString(Strip(a)).value), ParseAll(FindLiterals(Strip(b))).value))
  {
  }

  lemma TransformLiterals(h: Literal, body: seq<Literal>, ts: seq<string>)
    requires Printable(h)
    requires forall i :: 0 <= i < |body| ==> Printable(body[i])
    requires Codes(body) == Ok(ts)
    ensures FromString(ToCode(h).value).Ok? && Key(FromString(ToCode(h).value).value) == Key(h)
    ensures ParseAll(ts).Ok? && |ParseAll(ts).value| == |body|
    ensures forall i :: 0 <= i < |body| ==> Key(ParseAll(ts).value[i]) == Key(body[i])
  {
    FromStringToCode(h);
    forall i | 0 <= i < |body|
      ensures FromString(ts[i]).Ok? && Key(FromString(ts[i]).value) == Key(body[i])
    {
      ReadBackLiteral(body[i], ts[i]);
    }
    ParseAllValues(ts);
  }

  lemma ReadBackLiteral(l: Literal, t: string)
    requires Printable(l) && ToCode(l) == Some(t)
    ensures FromString(t).Ok? && Key(FromString(t).value) == Key(l)
  {
    FromStringToCode(l);
  }
}
