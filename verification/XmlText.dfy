/** What becomes of a leaf text: its tokens put together again, and why doing so twice changes nothing more. */
module XmlText {
  import opened Chars
  import opened XmlGrammar

  /** The text built up from s by the tokens of t. */
  function Rebuild(s: string, t: string): string
    decreases |t|
  {
    var u := SkipSpace(t);
    if u == "" then s
    else if IsAlpha(u[0]) then var n := AlnumPrefix(u); Rebuild(AddName(s, u[..n]), u[n..])
    else Rebuild(s + [u[0]], u[1..])
  }

  /** The normal form of a text. */
  function Normal(t: string): string { Rebuild("", t) }

  lemma RebuildSpace(s: string, c: char, t: string)
    requires IsSpace(c)
    ensures Rebuild(s, [c] + t) == Rebuild(s, t)
  {
    assert ([c] + t)[1..] == t;
    assert SkipSpace([c] + t) == SkipSpace(t);
  }

  lemma RebuildName(s: string, name: string, t: string)
    requires IsName(name) && (t == "" || !IsAlnum(t[0]))
    ensures Rebuild(s, name + t) == Rebuild(AddName(s, name), t)
  {
    var u := name + t;
    assert u[0] == name[0];
    AlnumPrefixOfName(name, t);
    assert u[..|name|] == name && u[|name|..] == t;
  }

  lemma RebuildOther(s: string, c: char, t: string)
    requires !IsSpace(c) && !IsAlpha(c)
    ensures Rebuild(s, [c] + t) == Rebuild(s + [c], t)
  {
    assert ([c] + t)[1..] == t;
  }

  /** The first token of a text is the same whatever stands behind the seam. */
  lemma RebuildStep(s: string, t: string, r: string) returns (s': string, t': string)
    requires t != "" && (r == "" || !IsAlnum(r[0]))
    ensures |t'| < |t| && Rebuild(s, t) == Rebuild(s', t') && Rebuild(s, t + r) == Rebuild(s', t' + r)
  {
    if IsAlpha(t[0]) {
      var n := AlnumPrefix(t);
      var name := t[..n];
      s', t' := AddName(s, name), t[n..];
      assert t == name + t' && t + r == name + (t' + r);
      RebuildName(s, name, t');
      RebuildName(s, name, t' + r);
    } else {
      s', t' := if IsSpace(t[0]) then s else s + [t[0]], t[1..];
      assert t == [t[0]] + t' && t + r == [t[0]] + (t' + r);
      if IsSpace(t[0]) {
        RebuildSpace(s, t[0], t');
        RebuildSpace(s, t[0], t' + r);
      } else {
        RebuildOther(s, t[0], t');
        RebuildOther(s, t[0], t' + r);
      }
    }
  }

  /** Where no name runs across the seam, a text is rebuilt piece by piece. */
  lemma {:induction false} RebuildAcross(s: string, t: string, r: string)
    requires r == "" || !IsAlnum(r[0])
    ensures Rebuild(s, t + r) == Rebuild(Rebuild(s, t), r)
    decreases |t|
  {
    if t == "" {
      assert t + r == r;
    } else {
      var s', t' := RebuildStep(s, t, r);
      RebuildAcross(s', t', r);
    }
  }

  lemma RebuildFirst(s: string, c: char, t: string)
    requires !IsAlpha(c)
    ensures Rebuild(s, [c] + t) == Rebuild(if IsSpace(c) then s else s + [c], t)
  {
    if IsSpace(c) {
      RebuildSpace(s, c, t);
    } else {
      RebuildOther(s, c, t);
    }
  }

  lemma RebuildNothing(s: string)
    ensures Rebuild(s, "") == s
  {}

  lemma LongerName(s: string, name: string, c: char)
    requires IsName(name) && IsAlnum(c)
    ensures Rebuild(s, name + [c]) == AddName(s, name) + [c]
  {
    assert (name + [c]) + "" == name + [c];
    RebuildName(s, name + [c], "");
    RebuildNothing(AddName(s, name + [c]));
    assert AddName(s, name + [c]) == AddName(s, name) + [c];
  }

  /** A digit at the end stays at the end, whether it is a token of its own or lengthens a name. */
  lemma {:induction false} RebuildDigit(s: string, t: string, d: char)
    requires IsDigit(d)
    ensures Rebuild(s, t + [d]) == Rebuild(s, t) + [d]
    decreases |t|
  {
    hide Rebuild, SkipSpace;
    var u := t + [d];
    if t == "" {
      assert u == [d] + "";
      RebuildFirst(s, d, "");
      RebuildNothing(s);
      RebuildNothing(s + [d]);
    } else if IsAlpha(t[0]) {
      var n := AlnumPrefix(t);
      var name, more := t[..n], t[n..];
      assert t == name + more && u == name + (more + [d]);
      RebuildName(s, name, more);
      if more == "" {
        assert u == name + [d];
        LongerName(s, name, d);
        RebuildNothing(AddName(s, name));
      } else {
        RebuildName(s, name, more + [d]);
        RebuildDigit(AddName(s, name), more, d);
      }
    } else {
      assert u == [t[0]] + (t[1..] + [d]) && t == [t[0]] + t[1..];
      RebuildFirst(s, t[0], t[1..] + [d]);
      RebuildFirst(s, t[0], t[1..]);
      RebuildDigit(if IsSpace(t[0]) then s else s + [t[0]], t[1..], d);
    }
  }

  /** One more token keeps a normal text normal. */
  lemma NormalName(s: string, name: string)
    requires Normal(s) == s && IsName(name)
    ensures Normal(AddName(s, name)) == AddName(s, name)
  {
    if s == "" {
      assert name + "" == name;
      RebuildName("", name, "");
    } else {
      assert AddName(s, name) == s + ([' '] + name);
      RebuildAcross("", s, [' '] + name);
      RebuildSpace(s, ' ', name);
      assert name + "" == name;
      RebuildName(s, name, "");
    }
  }

  lemma NormalChar(s: string, c: char)
    requires Normal(s) == s && !IsSpace(c) && !IsAlpha(c)
    ensures Normal(s + [c]) == s + [c]
  {
    if IsDigit(c) {
      RebuildDigit("", s, c);
    } else {
      RebuildAcross("", s, [c]);
      assert [c][1..] == "";
    }
  }

  /** Whatever is rebuilt on top of a normal text is normal. */
  lemma {:induction false} RebuildNormal(s: string, t: string)
    requires Normal(s) == s
    ensures Normal(Rebuild(s, t)) == Rebuild(s, t)
    decreases |t|
  {
    var u := SkipSpace(t);
    if u == "" {
    } else if IsAlpha(u[0]) {
      var n := AlnumPrefix(u);
      NormalName(s, u[..n]);
      RebuildNormal(AddName(s, u[..n]), u[n..]);
    } else {
      NormalChar(s, u[0]);
      RebuildNormal(s + [u[0]], u[1..]);
    }
  }

  /** Normalization is idempotent, also where a name and the digits behind it have become one name. */
  lemma NormalIdempotent(t: string)
    ensures Normal(Normal(t)) == Normal(t)
  {
    RebuildNormal("", t);
  }

  // ---------- the same, character by character ----------

  /** The last character of t belongs to a name: it is a letter, or a digit right behind such a character. */
  predicate EndsInName(t: string) {
    t != "" && (IsAlpha(t[|t| - 1]) || (IsDigit(t[|t| - 1]) && EndsInName(t[..|t| - 1])))
  }

  /** A name begins at index i. */
  predicate NameBegins(t: string, i: nat) {
    i < |t| && IsAlpha(t[i]) && !EndsInName(t[..i])
  }

  /** Every character but the white space, a blank in front of each at which a name begins, unless it is the first. */
  function Spaced(t: string): string
    decreases |t|
  {
    if t == "" then ""
    else
      var k := |t| - 1;
      var s := Spaced(t[..k]);
      if IsSpace(t[k]) then s else if NameBegins(t, k) && s != "" then s + " " + [t[k]] else s + [t[k]]
  }

  lemma {:induction false} NameEnds(name: string)
    requires name != "" && IsAlpha(name[0]) && forall i :: 0 <= i < |name| ==> IsAlnum(name[i])
    ensures EndsInName(name)
    decreases |name|
  {
    if |name| > 1 {
      NameEnds(name[..|name| - 1]);
    }
  }

  /** Whether a text ends in a name is decided behind any character that no name goes on from. */
  lemma {:induction false} EndsBehind(front: string, t: string)
    requires t != "" && (!IsAlnum(t[0]) || (front != "" && !IsAlpha(front[|front| - 1]) && !EndsInName(front)))
    ensures EndsInName(front + t) <==> EndsInName(t)
    decreases |t|
  {
    var u := front + t;
    assert u[..|u| - 1] == front + t[..|t| - 1];
    if |t| > 1 {
      EndsBehind(front, t[..|t| - 1]);
    } else {
      assert u[..|u| - 1] == front && t[..0] == "";
    }
  }

  /** A letter at the end goes on with a name, or begins one. */
  lemma {:induction false} RebuildLetter(s: string, t: string, c: char)
    requires IsAlpha(c)
    ensures Rebuild(s, t + [c]) == if EndsInName(t) then Rebuild(s, t) + [c] else AddName(Rebuild(s, t), [c])
    decreases |t|
  {
    var u := t + [c];
    if t == "" {
      assert u == [c] + "" && u == [c];
      RebuildName(s, [c], "");
    } else if IsAlpha(t[0]) {
      var n := AlnumPrefix(t);
      var name, more := t[..n], t[n..];
      assert t == name + more && u == name + (more + [c]);
      RebuildName(s, name, more);
      if more == "" {
        assert u == name + [c] && t == name;
        NameEnds(name);
        LongerName(s, name, c);
      } else {
        EndsBehind(name, more);
        RebuildName(s, name, more + [c]);
        RebuildLetter(AddName(s, name), more, c);
      }
    } else {
      var s' := if IsSpace(t[0]) then s else s + [t[0]];
      assert u == [t[0]] + (t[1..] + [c]) && t == [t[0]] + t[1..];
      RebuildFirst(s, t[0], t[1..] + [c]);
      RebuildFirst(s, t[0], t[1..]);
      RebuildLetter(s', t[1..], c);
      if t[1..] != "" {
        EndsBehind([t[0]], t[1..]);
      }
    }
  }

  /** What the parser makes of a text, whatever it is: its characters but the white space, each name set off by a blank. */
  lemma {:induction false} NormalIsSpaced(t: string)
    ensures Normal(t) == Spaced(t)
    decreases |t|
  {
    if t != "" {
      var less, c := t[..|t| - 1], t[|t| - 1];
      assert t == less + [c];
      NormalIsSpaced(less);
      if IsAlpha(c) {
        RebuildLetter("", less, c);
      } else if IsDigit(c) {
        RebuildDigit("", less, c);
      } else {
        RebuildAcross("", less, [c]);
        assert [c] + "" == [c];
        RebuildFirst(Normal(less), c, "");
      }
    }
  }

  /**
   White space only as single blanks inside the text, each in front of a letter, and a blank in
   front of every name but one at the start.
   */
  predicate Clean(t: string) {
    && (forall i :: 0 <= i < |t| && IsSpace(t[i]) ==> t[i] == ' ' && 0 < i < |t| - 1 && IsAlpha(t[i + 1]))
    && (forall i :: 0 < i < |t| && NameBegins(t, i) ==> t[i - 1] == ' ')
  }

  lemma CleanWithChar(s: string, c: char)
    requires Clean(s) && !IsSpace(c) && (IsAlpha(c) ==> s == "" || EndsInName(s))
    ensures Clean(s + [c])
  {
    forall i | 0 < i < |s + [c]| && NameBegins(s + [c], i)
      ensures (s + [c])[i - 1] == ' '
    {
      assert (s + [c])[..i] == s[..i];
      if i < |s| {
        assert NameBegins(s, i);
      }
    }
  }

  lemma CleanWithName(s: string, c: char)
    requires Clean(s) && s != "" && IsAlpha(c)
    ensures Clean(s + " " + [c])
  {
    var u := s + " " + [c];
    forall i | 0 < i < |u| && NameBegins(u, i)
      ensures u[i - 1] == ' '
    {
      if i < |s| {
        assert u[..i] == s[..i];
        assert NameBegins(s, i);
      }
    }
  }

  /** Whatever is put together from the tokens of a text is clean. */
  lemma {:induction false} SpacedIsClean(t: string)
    ensures Clean(Spaced(t)) && (EndsInName(t) ==> EndsInName(Spaced(t)))
    decreases |t|
  {
    if t != "" {
      var k := |t| - 1;
      var s, c := Spaced(t[..k]), t[k];
      SpacedIsClean(t[..k]);
      if NameBegins(t, k) && s != "" {
        CleanWithName(s, c);
      } else if !IsSpace(c) {
        CleanWithChar(s, c);
        assert (s + [c])[..|s|] == s;
      }
    }
  }

  /** Of a clean text every stretch from the start comes back, but for a blank at its end. */
  lemma {:induction false} CleanStretch(t: string, k: nat)
    requires Clean(t) && k <= |t|
    ensures Spaced(t[..k]) == if k > 0 && IsSpace(t[k - 1]) then t[..k - 1] else t[..k]
    decreases k
  {
    if k > 0 {
      var less, c := t[..k - 1], t[k - 1];
      CleanStretch(t, k - 1);
      assert t[..k][..k - 1] == less && t[..k] == less + [c];
      assert NameBegins(t[..k], k - 1) == NameBegins(t, k - 1);
      if !IsSpace(c) && k > 1 && IsSpace(t[k - 2]) {
        assert less[..k - 2] == t[..k - 2] && !EndsInName(less);
        assert t[..k] == t[..k - 2] + " " + [c];
      }
    }
  }

  /** A text comes back as it is if and only if it is clean. */
  lemma NormalIff(t: string)
    ensures Normal(t) == t <==> Clean(t)
    ensures Spaced(t) == t <==> Clean(t)
  {
    NormalIsSpaced(t);
    SpacedIsClean(t);
    if Clean(t) {
      CleanStretch(t, |t|);
      assert t[..|t|] == t;
    }
  }

  /** Words that begin with a letter, one blank between any two. */
  function Joined(words: seq<string>): string {
    if words == [] then "" else if |words| == 1 then words[0] else words[0] + " " + Joined(words[1..])
  }

  /** Words come back as they are. */
  lemma {:induction false} WordsComeBack(words: seq<string>)
    requires forall i :: 0 <= i < |words| ==> IsName(words[i])
    ensures Normal(Joined(words)) == Joined(words)
    decreases |words|
  {
    if words != [] {
      WordsFollow("", words);
    }
  }

  lemma {:induction false} WordsFollow(s: string, words: seq<string>)
    requires words != [] && forall i :: 0 <= i < |words| ==> IsName(words[i])
    ensures Rebuild(s, Joined(words)) == (if s == "" then "" else s + " ") + Joined(words)
    decreases |words|
  {
    hide Rebuild, SkipSpace, AlnumPrefix;
    var first, more := words[0], Joined(words[1..]);
    if |words| == 1 {
      assert first + "" == first;
      RebuildName(s, first, "");
      RebuildNothing(AddName(s, first));
    } else {
      assert Joined(words) == first + ([' '] + more);
      RebuildName(s, first, [' '] + more);
      RebuildSpace(AddName(s, first), ' ', more);
      WordsFollow(AddName(s, first), words[1..]);
    }
  }
}
