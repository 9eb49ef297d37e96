/** Character classes of the C locale on 7-bit ASCII, and the optional value. */
module Chars {

  datatype Option<+T> = None | Some(value: T)

  predicate IsSpace(c: char) { c == ' ' || '\t' <= c <= '\r' }

  predicate IsAlpha(c: char) { 'a' <= c <= 'z' || 'A' <= c <= 'Z' }

  predicate IsDigit(c: char) { '0' <= c <= '9' }

  predicate IsAlnum(c: char) { IsAlpha(c) || IsDigit(c) }

  /** A tag or attribute name as both tokenizers accept it: a letter, then letters and digits. */
  predicate IsName(s: string) {
    && s != ""
    && IsAlpha(s[0])
    && forall i :: 0 <= i < |s| ==> IsAlnum(s[i])
  }

  /** One more character is read over, whatever it is. */
  function Advance(s: string): (r: string)
    ensures s == "" ==> r == ""
    ensures s != "" ==> r == s[1..]
  {
    if s == "" then "" else s[1..]
  }

  /** A close tag, printed. */
  function PrintClose(name: string): string { "</" + (name + ">") }

  /** The string without its leading white space. */
  function SkipSpace(s: string): (r: string)
    ensures |r| <= |s|
    ensures r != "" ==> !IsSpace(r[0])
  {
    if s != "" && IsSpace(s[0]) then SkipSpace(s[1..]) else s
  }

  /** The number of leading letters and digits. */
  function AlnumPrefix(s: string): (n: nat)
    ensures n <= |s|
    ensures forall i :: 0 <= i < n ==> IsAlnum(s[i])
    ensures n < |s| ==> !IsAlnum(s[n])
  {
    if s != "" && IsAlnum(s[0]) then 1 + AlnumPrefix(s[1..]) else 0
  }

  /** A run of letters and digits followed by anything else is exactly the prefix taken. */
  lemma AlnumPrefixOfName(name: string, rest: string)
    requires forall i :: 0 <= i < |name| ==> IsAlnum(name[i])
    requires rest == "" || !IsAlnum(rest[0])
    ensures AlnumPrefix(name + rest) == |name|
  {
    var n := AlnumPrefix(name + rest);
    assert forall i :: 0 <= i < |name| ==> (name + rest)[i] == name[i];
    assert rest != "" ==> (name + rest)[|name|] == rest[0];
  }

  lemma Assoc(a: string, b: string, c: string)
    ensures (a + b) + c == a + (b + c)
  {}

  /** White space apart, the source begins with `<` and this name, which ends there. */
  predicate OpensWith(src: string, name: string) {
    var s := SkipSpace(src);
    s != "" && s[0] == '<'
    && var t := SkipSpace(s[1..]);
    |t| >= |name| && t[..|name|] == name && (|t| > |name| ==> !IsAlnum(t[|name|]))
  }

  /** Where a name stands in front of no further letter or digit, it is the prefix taken. */
  lemma NameIsPrefix(t: string, name: string)
    requires IsName(name)
    ensures t != "" && IsAlpha(t[0]) && t[..AlnumPrefix(t)] == name
       <==> |t| >= |name| && t[..|name|] == name && (|t| > |name| ==> !IsAlnum(t[|name|]))
  {
    if |t| >= |name| && t[..|name|] == name && (|t| > |name| ==> !IsAlnum(t[|name|])) {
      AlnumPrefixOfName(name, t[|name|..]);
      assert t == name + t[|name|..];
    }
  }
}
