/**
 * `attrs`: escaping a value for use inside a quoted HTML attribute. The source
 * applies five global replacements one after the other, `&` first; the model
 * keeps that chain and proves it equal to escaping each character once.
 */
module Escape {
  import opened Wrappers

  /** The characters `attrs` replaces. */
  predicate Special(c: char) {
    c == '&' || c == '"' || c == '\'' || c == '<' || c == '>'
  }

  /** The characters that must not appear raw in an attribute value. */
  predicate Unsafe(c: char) {
    c == '"' || c == '\'' || c == '<' || c == '>'
  }

  /** The character reference `attrs` writes for `c`; other characters stand for themselves. */
  function Reference(c: char): string {
    match c
    case '&' => "&amp;"
    case '"' => "&quot;"
    case '\'' => "&#39;"
    case '<' => "&lt;"
    case '>' => "&gt;"
    case _ => [c]
  }

  /** `s.replace(/c/g, rep)`: every occurrence of the character `c` becomes `rep`. */
  function ReplaceAll(s: string, c: char, rep: string): string {
    if s == [] then [] else (if s[0] == c then rep else [s[0]]) + ReplaceAll(s[1..], c, rep)
  }

  /** The five replacements in the order `attrs` applies them. */
  function Chain(s: string): string {
    var amp := ReplaceAll(s, '&', "&amp;");
    var quot := ReplaceAll(amp, '"', "&quot;");
    var apos := ReplaceAll(quot, '\'', "&#39;");
    var lt := ReplaceAll(apos, '<', "&lt;");
    ReplaceAll(lt, '>', "&gt;")
  }

  /** Escaping character by character: the reference of each character, in order. */
  function EscapeEach(s: string): string {
    if s == [] then [] else Reference(s[0]) + EscapeEach(s[1..])
  }

  /** The special character whose reference `s` starts with, if any. */
  function ReferenceAt(s: string): Option<char> {
    if s == [] || s[0] != '&' then None
    else if "&amp;" <= s then Some('&')
    else if "&quot;" <= s then Some('"')
    else if "&#39;" <= s then Some('\'')
    else if "&lt;" <= s then Some('<')
    else if "&gt;" <= s then Some('>')
    else None
  }

  /** Decoding the five references `attrs` writes: each turns back into its character, and all other text stands for itself. */
  function Unescape(s: string): string
    decreases |s|
  {
    if s == [] then []
    else match ReferenceAt(s)
      case Some(c) => [c] + Unescape(s[|Reference(c)|..])
      case None => [s[0]] + Unescape(s[1..])
  }

  /** Every `&` in `s` begins one of the five references. */
  predicate AmpersandsBeginReferences(s: string) {
    forall i :: 0 <= i < |s| && s[i] == '&' ==> ReferenceAt(s[i..]).Some?
  }

  /**
   * `attrs(str)`: `""` for `null` or `undefined`; otherwise a string with no
   * raw quote or angle bracket, in which every `&` begins a reference, and
   * which decodes back to the input.
   */
  function Attrs(str: Option<string>): (r: string)
    ensures str.None? ==> r == []
    ensures str.Some? ==> forall i :: 0 <= i < |r| ==> !Unsafe(r[i])
    ensures str.Some? ==> AmpersandsBeginReferences(r)
    ensures str.Some? ==> Unescape(r) == str.value
  {
    match str
    case None => []
    case Some(s) =>
      ChainIsEscapeEach(s);
      EscapeEachIsSafe(s);
      EscapeEachAmpersands(s);
      UnescapeEscapeEach(s);
      Chain(s)
  }

  lemma {:induction false} ReplaceAllAppend(a: string, b: string, c: char, rep: string)
    ensures ReplaceAll(a + b, c, rep) == ReplaceAll(a, c, rep) + ReplaceAll(b, c, rep)
    decreases |a|
  {
    if a == [] {
      assert a + b == b;
    } else {
      assert (a + b)[0] == a[0];
      assert (a + b)[1..] == a[1..] + b;
      ReplaceAllAppend(a[1..], b, c, rep);
    }
  }

  lemma {:induction false} ReplaceAllAbsent(s: string, c: char, rep: string)
    requires c !in s
    ensures ReplaceAll(s, c, rep) == s
    decreases |s|
  {
    if s != [] {
      ReplaceAllAbsent(s[1..], c, rep);
    }
  }

  /** The chain splits at any point of its input. */
  lemma ChainAppend(a: string, b: string)
    ensures Chain(a + b) == Chain(a) + Chain(b)
  {
    var amp, quot := ReplaceAll(a, '&', "&amp;"), ReplaceAll(b, '&', "&amp;");
    ReplaceAllAppend(a, b, '&', "&amp;");
    var q1, q2 := ReplaceAll(amp, '"', "&quot;"), ReplaceAll(quot, '"', "&quot;");
    ReplaceAllAppend(amp, quot, '"', "&quot;");
    var p1, p2 := ReplaceAll(q1, '\'', "&#39;"), ReplaceAll(q2, '\'', "&#39;");
    ReplaceAllAppend(q1, q2, '\'', "&#39;");
    var l1, l2 := ReplaceAll(p1, '<', "&lt;"), ReplaceAll(p2, '<', "&lt;");
    ReplaceAllAppend(p1, p2, '<', "&lt;");
    ReplaceAllAppend(l1, l2, '>', "&gt;");
  }

  /** On one character the chain writes that character's reference: no later step touches an earlier step's output. */
  lemma ChainOfChar(c: char)
    ensures Chain([c]) == Reference(c)
  {
    var amp := ReplaceAll([c], '&', "&amp;");
    assert [c][1..] == [];
    assert amp == (if c == '&' then "&amp;" else [c]) + ReplaceAll([], '&', "&amp;");
    var quot := ReplaceAll(amp, '"', "&quot;");
    if c == '"' {
      assert amp == [c];
      assert quot == "&quot;" + ReplaceAll([], '"', "&quot;");
    } else {
      ReplaceAllAbsent(amp, '"', "&quot;");
    }
    var apos := ReplaceAll(quot, '\'', "&#39;");
    if c == '\'' {
      assert quot == [c];
      assert apos == "&#39;" + ReplaceAll([], '\'', "&#39;");
    } else {
      ReplaceAllAbsent(quot, '\'', "&#39;");
    }
    var lt := ReplaceAll(apos, '<', "&lt;");
    if c == '<' {
      assert apos == [c];
      assert lt == "&lt;" + ReplaceAll([], '<', "&lt;");
    } else {
      ReplaceAllAbsent(apos, '<', "&lt;");
    }
    if c == '>' {
      assert lt == [c];
      assert ReplaceAll(lt, '>', "&gt;") == "&gt;" + ReplaceAll([], '>', "&gt;");
    } else {
      ReplaceAllAbsent(lt, '>', "&gt;");
    }
  }

  /** Five passes over the whole string give the same text as one pass over its characters. */
  lemma {:induction false} ChainIsEscapeEach(s: string)
    ensures Chain(s) == EscapeEach(s)
    decreases |s|
  {
    if s != [] {
      assert s == [s[0]] + s[1..];
      ChainAppend([s[0]], s[1..]);
      ChainOfChar(s[0]);
      ChainIsEscapeEach(s[1..]);
    }
  }

  lemma {:induction false} EscapeEachIsSafe(s: string)
    ensures forall i :: 0 <= i < |EscapeEach(s)| ==> !Unsafe(EscapeEach(s)[i])
    decreases |s|
  {
    if s != [] {
      EscapeEachIsSafe(s[1..]);
      var head, tail := Reference(s[0]), EscapeEach(s[1..]);
      assert forall i :: 0 <= i < |head| ==> !Unsafe(head[i]);
      assert EscapeEach(s) == head + tail;
    }
  }

  /** A reference followed by anything is recognised as that reference, and a plain character is not one. */
  lemma ReferenceAtReference(c: char, t: string)
    ensures ReferenceAt(Reference(c) + t) == (if Special(c) then Some(c) else None)
  {
    var u := Reference(c) + t;
    assert u[..|Reference(c)|] == Reference(c);
    assert u[0] == Reference(c)[0];
    if Special(c) {
      // The five references already differ in their second character.
      assert u[1] == Reference(c)[1];
    }
  }

  lemma {:induction false} EscapeEachAmpersands(s: string)
    ensures AmpersandsBeginReferences(EscapeEach(s))
    decreases |s|
  {
    if s != [] {
      EscapeEachAmpersands(s[1..]);
      var head, tail := Reference(s[0]), EscapeEach(s[1..]);
      var r := head + tail;
      assert EscapeEach(s) == r;
      forall i | 0 <= i < |r| && r[i] == '&'
        ensures ReferenceAt(r[i..]).Some?
      {
        if i < |head| {
          // Only the first character of a reference is `&`.
          assert head[i] == '&';
          assert i == 0;
          ReferenceAtReference(s[0], tail);
        } else {
          assert r[i..] == tail[i - |head|..];
          assert tail[i - |head|] == '&';
        }
      }
    }
  }

  /** Decoding undoes escaping, because `&` is escaped too and references are recognised whole. */
  lemma {:induction false} UnescapeEscapeEach(s: string)
    ensures Unescape(EscapeEach(s)) == s
    decreases |s|
  {
    if s != [] {
      var head, tail := Reference(s[0]), EscapeEach(s[1..]);
      var r := head + tail;
      assert EscapeEach(s) == r;
      ReferenceAtReference(s[0], tail);
      if Special(s[0]) {
        assert r[|head|..] == tail;
      } else {
        assert r[0] == s[0] && r[1..] == tail;
      }
      UnescapeEscapeEach(s[1..]);
    }
  }
}
