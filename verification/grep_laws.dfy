/** What patterns match, written out for the characters of the pattern itself. */
module GrepLaws {
  import opened Grep

  /** The text has the characters of r one by one, where `.` stands for any. */
  predicate Fit(r: string, s: string) {
    |s| == |r| && forall i :: 0 <= i < |r| ==> r[i] == '.' || r[i] == s[i]
  }

  predicate FitAt(r: string, text: string, i: nat) {
    i + |r| <= |text| && Fit(r, text[i..i + |r|])
  }

  /** One character, or `.`, again and again. */
  predicate AllFit(x: char, s: string) {
    forall i :: 0 <= i < |s| ==> x == '.' || x == s[i]
  }

  predicate Simple(r: string) {
    forall i :: 0 <= i < |r| ==> r[i] != '*'
  }

  /** A `$` is an ordinary character but at the very end. */
  predicate Open(r: string) {
    r == "" || r[|r| - 1] != '$'
  }

  lemma FitStep(r: string, s: string)
    requires |r| == |s| > 0
    ensures Fit(r, s) <==> Fits(r[0], s[0]) && Fit(r[1..], s[1..])
  {
    if Fits(r[0], s[0]) && Fit(r[1..], s[1..]) {
      forall i | 0 <= i < |r| ensures r[i] == '.' || r[i] == s[i] {
        if i > 0 {
          assert r[1..][i - 1] == r[i] && s[1..][i - 1] == s[i];
        }
      }
    }
    if Fit(r, s) {
      forall i | 0 <= i < |r| - 1 ensures r[1..][i] == '.' || r[1..][i] == s[1..][i] {
        assert r[1..][i] == r[i + 1] && s[1..][i] == s[i + 1];
      }
    }
  }

  lemma ParseFirst(r: string, tail: string)
    requires Simple(r) && r != "" && if tail == "" then Open(r) else tail[0] != '*'
    ensures var rest := Parse(r[1..] + tail); Parse(r + tail) == Regex([One(r[0])] + rest.items, rest.end)
  {
    var re := r + tail;
    assert re[0] == r[0] && re[1..] == r[1..] + tail;
    assert |re| >= 2 ==> re[1] != '*' by {
      assert |r| >= 2 ==> re[1] == r[1];
      assert |r| == 1 && |re| >= 2 ==> re[1] == tail[0];
    }
    assert re != "$" by {
      assert r[0] != '$' || |re| > 1;
    }
  }

  /** A pattern that begins with simple characters: those, and then the rest of it. */
  lemma {:induction false} SimpleThen(r: string, tail: string, text: string)
    requires Simple(r) && if tail == "" then Open(r) else tail[0] != '*'
    ensures Begins(Parse(r + tail), text) <==>
              |r| <= |text| && Fit(r, text[..|r|]) && Begins(Parse(tail), text[|r|..])
    decreases |r|
  {
    if r == "" {
      assert r + tail == tail && text[0..] == text;
    } else {
      ParseFirst(r, tail);
      BeginsOne(r[0], Parse(r[1..] + tail), text);
      if text != "" {
        SimpleThen(r[1..], tail, text[1..]);
        if |r| <= |text| {
          FitStep(r, text[..|r|]);
          assert text[..|r|][1..] == text[1..][..|r| - 1] && text[1..][|r| - 1..] == text[|r|..];
        }
      }
    }
  }

  /** Without a `$`: the pattern fits here, whatever follows. */
  lemma Here(r: string, text: string)
    requires Simple(r) && Open(r)
    ensures Begins(Parse(r), text) <==> |r| <= |text| && Fit(r, text[..|r|])
  {
    assert r + "" == r;
    SimpleThen(r, "", text);
    if |r| <= |text| {
      BeginsNothing(false, text[|r|..]);
    }
  }

  /** With it: it fits all of the text. */
  lemma HereToEnd(r: string, text: string)
    requires Simple(r)
    ensures Begins(Parse(r + "$"), text) <==> Fit(r, text)
  {
    SimpleThen(r, "$", text);
    if |r| <= |text| {
      BeginsNothing(true, text[|r|..]);
      assert text[|r|..] == "" ==> text[..|r|] == text;
    }
  }

  /** A simple pattern matches the texts that have its characters somewhere. */
  lemma {:induction false} SimplePattern(r: string, text: string)
    requires Simple(r) && Open(r) && (r == "" || r[0] != '^')
    ensures Contains(r, text) <==> exists i :: FitAt(r, text, i)
  {
    forall i | 0 <= i <= |text| ensures Begins(Parse(r), text[i..]) <==> FitAt(r, text, i) {
      Here(r, text[i..]);
      if i + |r| <= |text| {
        assert text[i..][..|r|] == text[i..i + |r|];
      }
    }
    if i: nat :| FitAt(r, text, i) {
      assert 0 <= i <= |text| && Begins(Parse(r), text[i..]);
    }
  }

  /** `^` ties it to the start of the text. */
  lemma {:induction false} PatternAtStart(r: string, text: string)
    requires Simple(r) && Open(r)
    ensures Contains("^" + r, text) <==> |r| <= |text| && Fit(r, text[..|r|])
  {
    assert ("^" + r)[1..] == r;
    Here(r, text);
  }

  /** `$` ties it to the end. */
  lemma {:induction false} PatternAtEnd(r: string, text: string)
    requires Simple(r) && (r == "" || r[0] != '^')
    ensures Contains(r + "$", text) <==> |r| <= |text| && Fit(r, text[|text| - |r|..])
  {
    var re := r + "$";
    assert re[0] != '^';
    forall i | 0 <= i <= |text| ensures Begins(Parse(re), text[i..]) <==> i == |text| - |r| && Fit(r, text[i..]) {
      HereToEnd(r, text[i..]);
    }
    if |r| <= |text| && Fit(r, text[|text| - |r|..]) {
      assert Begins(Parse(re), text[|text| - |r|..]);
    }
  }

  /** Both: the text is what the pattern says. */
  lemma {:induction false} WholePattern(r: string, text: string)
    requires Simple(r)
    ensures Contains("^" + r + "$", text) <==> Fit(r, text)
  {
    assert ("^" + r + "$")[1..] == r + "$";
    HereToEnd(r, text);
  }

  lemma ParseStar(x: char, tail: string)
    ensures Parse([x, '*'] + tail) == Regex([Star(x)] + Parse(tail).items, Parse(tail).end)
  {
    var re := [x, '*'] + tail;
    assert re[2..] == tail && re[1] == '*' && re[0] == x;
  }

  lemma StarToEnd(x: char, q: string, s: string)
    requires Simple(q)
    ensures Begins(Parse([x, '*'] + (q + "$")), s) <==>
              |q| <= |s| && AllFit(x, s[..|s| - |q|]) && Fit(q, s[|s| - |q|..])
  {
    hide Begins, Parse;
    var tail := q + "$";
    ParseStar(x, tail);
    BeginsStar(x, Parse(tail), s);
    forall k | 0 <= k <= |s| ensures Begins(Parse(tail), s[k..]) <==> k == |s| - |q| && Fit(q, s[k..]) {
      HereToEnd(q, s[k..]);
    }
    if |q| <= |s| {
      var k := |s| - |q|;
      assert AllFit(x, s[..k]) <==> forall i :: 0 <= i < k ==> Fits(x, s[i]) by {
        assert forall i :: 0 <= i < k ==> s[..k][i] == s[i];
      }
    }
  }

  /** `^rx*q$`: the characters of r, any number that x fits, and the characters of q. */
  lemma {:induction false} StarPattern(r: string, x: char, q: string, text: string)
    requires Simple(r) && Simple(q) && x != '*'
    ensures Contains("^" + r + [x, '*'] + q + "$", text) <==>
            && |r| + |q| <= |text| && Fit(r, text[..|r|])
            && AllFit(x, text[|r|..|text| - |q|]) && Fit(q, text[|text| - |q|..])
  {
    var tail := [x, '*'] + (q + "$");
    var re := "^" + r + [x, '*'] + q + "$";
    assert re[1..] == r + tail && re[0] == '^';
    SimpleThen(r, tail, text);
    if |r| <= |text| {
      StarToEnd(x, q, text[|r|..]);
      if |r| + |q| <= |text| {
        assert text[|r|..][..|text| - |r| - |q|] == text[|r|..|text| - |q|];
        assert text[|r|..][|text| - |r| - |q|..] == text[|text| - |q|..];
      }
    }
  }

  /** Without the `$` and the `^`, a final `x*` asks for nothing. */
  lemma {:induction false} LooseStar(r: string, x: char, text: string)
    requires Simple(r) && Open(r) && (r == "" || r[0] != '^') && x != '*' && (r == "" ==> x != '^')
    ensures Contains(r + [x, '*'], text) <==> Contains(r, text)
  {
    var tail := [x, '*'];
    var re := r + tail;
    assert re[0] != '^';
    assert tail[2..] == "" && Parse(tail) == Regex([Star(x)] + Parse("").items, false);
    forall i | 0 <= i <= |text| ensures Begins(Parse(re), text[i..]) <==> Begins(Parse(r), text[i..]) {
      var s := text[i..];
      Here(r, s);
      SimpleThen(r, tail, s);
      if |r| <= |s| {
        BeginsStar(x, Parse(""), s[|r|..]);
        BeginsNothing(false, s[|r|..][0..]);
        assert Begins(Parse(""), s[|r|..][0..]);
      }
    }
  }
}
