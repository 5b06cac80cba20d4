/** Placeholder substitution in message templates:
    `template.replace(/\{name\}/g, name)`. */
module Render {

  import opened JsString

  const Placeholder: string := "{name}"

  /** Replaces every occurrence of `pat`, scanning left to right without
      overlap, by the literal text `rep`. */
  function ReplaceAll(s: string, pat: string, rep: string): string
    requires pat != []
    decreases |s|
  {
    if |s| < |pat| then s
    else if s[..|pat|] == pat then rep + ReplaceAll(s[|pat|..], pat, rep)
    else [s[0]] + ReplaceAll(s[1..], pat, rep)
  }

  /** A template without the placeholder comes back unchanged. */
  lemma {:induction false} ReplaceAbsent(s: string, pat: string, rep: string)
    requires pat != [] && !Includes(s, pat)
    ensures ReplaceAll(s, pat, rep) == s
    decreases |s|
  {
    if |s| >= |pat| {
      ReplaceAbsent(s[1..], pat, rep);
      assert s == [s[0]] + s[1..];
    }
  }

  /** Text before the first occurrence is kept, and the occurrence itself
      becomes `rep`. */
  lemma {:induction false} ReplaceFirst(a: string, pat: string, b: string, rep: string)
    requires pat != [] && forall j: nat :: j < |a| ==> !OccursAt(a + pat + b, pat, j)
    ensures ReplaceAll(a + pat + b, pat, rep) == a + rep + ReplaceAll(b, pat, rep)
    decreases |a|
  {
    var s := a + pat + b;
    if a == [] {
      assert s == pat + b && s[..|pat|] == pat && s[|pat|..] == b;
    } else {
      var t := a[1..] + pat + b;
      NoMatchAfterFirst(a, pat, b);
      ReplaceFirst(a[1..], pat, b, rep);
      var x := ReplaceAll(b, pat, rep);
      assert ReplaceAll(s, pat, rep) == [a[0]] + ReplaceAll(t, pat, rep);
      assert [a[0]] + (a[1..] + rep + x) == a + rep + x;
    }
  }

  /** Where no match starts before the occurrence, none starts at the first
      character, and none starts before it once that character is dropped. */
  lemma NoMatchAfterFirst(a: string, pat: string, b: string)
    requires pat != [] && a != [] && forall j: nat :: j < |a| ==> !OccursAt(a + pat + b, pat, j)
    ensures (a + pat + b)[..|pat|] != pat && (a + pat + b)[0] == a[0] && (a + pat + b)[1..] == a[1..] + pat + b
    ensures forall j: nat :: j < |a[1..]| ==> !OccursAt(a[1..] + pat + b, pat, j)
  {
    var s := a + pat + b;
    var t := a[1..] + pat + b;
    assert !OccursAt(s, pat, 0);
    assert s[..|pat|] == s[0..|pat|];
    assert s[1..] == t;
    forall j: nat | j < |a[1..]|
      ensures !OccursAt(t, pat, j)
    {
      assert !OccursAt(s, pat, j + 1);
      assert t[j..j + |pat|] == s[j + 1..j + 1 + |pat|];
    }
  }

  /** No occurrence of the placeholder can start inside brace-free text. */
  lemma BraceFreeNoMatch(a: string, b: string)
    requires '{' !in a
    ensures forall j: nat :: j < |a| ==> !OccursAt(a + Placeholder + b, Placeholder, j)
  {
    var s := a + Placeholder + b;
    forall j: nat | j < |a|
      ensures !OccursAt(s, Placeholder, j)
    {
      assert s[j] == a[j] != '{';
      if j + |Placeholder| <= |s| {
        assert s[j..j + |Placeholder|][0] == s[j];
      }
    }
  }

  /** The rendering the message code evidently intends: every `{name}`
      becomes the member's name, character for character. */
  function Fill(template: string, name: string): string {
    ReplaceAll(template, Placeholder, name)
  }

  /** The first placeholder of a template with no other renders as the
      text around it with the exact name in its place. */
  lemma NameAppearsVerbatim(a: string, b: string, name: string)
    requires forall j: nat :: j < |a| ==> !OccursAt(a + Placeholder + b, Placeholder, j)
    requires !Includes(b, Placeholder)
    ensures Fill(a + Placeholder + b, name) == a + name + b
  {
    ReplaceFirst(a, Placeholder, b, name);
    ReplaceAbsent(b, Placeholder, name);
  }

  // ----- String.prototype.replace as the runtime executes it -----

  /** ECMAScript GetSubstitution for a pattern without capture groups:
      `$$` gives `$`, `$&` the matched text, `` $` `` the text before the
      match, `$'` the text after it; any other `$` stands for itself. */
  function Expand(rep: string, matched: string, before: string, after: string): string
    decreases |rep|
  {
    if rep == [] then []
    else if rep[0] == '$' && |rep| >= 2 && rep[1] in "$&`'" then
      (match rep[1]
       case '$' => "$"
       case '&' => matched
       case '`' => before
       case _ => after)
      + Expand(rep[2..], matched, before, after)
    else [rep[0]] + Expand(rep[1..], matched, before, after)
  }

  /** The global replace of a literal pattern from position `i` of `s` on,
      with the replacement string run through Expand at each match. */
  function JsReplaceFrom(s: string, pat: string, rep: string, i: nat): string
    requires pat != [] && i <= |s|
    decreases |s| - i
  {
    if |s| - i < |pat| then s[i..]
    else if s[i..i + |pat|] == pat then
      Expand(rep, pat, s[..i], s[i + |pat|..]) + JsReplaceFrom(s, pat, rep, i + |pat|)
    else [s[i]] + JsReplaceFrom(s, pat, rep, i + 1)
  }

  /** `s.replace(/pat/g, rep)` with a string `rep`: for a replacement
      without `$` it is the literal substitution. */
  function JsReplaceAll(s: string, pat: string, rep: string): (r: string)
    requires pat != []
    ensures '$' !in rep ==> r == ReplaceAll(s, pat, rep)
  {
    if '$' !in rep then
      JsReplaceAgrees(s, pat, rep, 0);
      assert s[0..] == s;
      JsReplaceFrom(s, pat, rep, 0)
    else JsReplaceFrom(s, pat, rep, 0)
  }

  lemma {:induction false} ExpandPlain(rep: string, matched: string, before: string, after: string)
    requires '$' !in rep
    ensures Expand(rep, matched, before, after) == rep
    decreases |rep|
  {
    if rep != [] {
      ExpandPlain(rep[1..], matched, before, after);
      assert rep == [rep[0]] + rep[1..];
    }
  }

  /** For a replacement without `$` the runtime's replace and the literal
      substitution agree on every template. */
  lemma {:induction false} JsReplaceAgrees(s: string, pat: string, rep: string, i: nat)
    requires pat != [] && i <= |s| && '$' !in rep
    ensures JsReplaceFrom(s, pat, rep, i) == ReplaceAll(s[i..], pat, rep)
    decreases |s| - i
  {
    var t := s[i..];
    if |s| - i >= |pat| {
      assert t[..|pat|] == s[i..i + |pat|];
      if s[i..i + |pat|] == pat {
        JsReplaceAgrees(s, pat, rep, i + |pat|);
        assert t[|pat|..] == s[i + |pat|..];
        assert ReplaceAll(t, pat, rep) == rep + ReplaceAll(s[i + |pat|..], pat, rep);
        ExpandPlain(rep, pat, s[..i], s[i + |pat|..]);
        JsReplaceMatch(s, pat, rep, i);
      } else {
        JsReplaceAgrees(s, pat, rep, i + 1);
        assert t[1..] == s[i + 1..] && t[0] == s[i];
        assert ReplaceAll(t, pat, rep) == [s[i]] + ReplaceAll(s[i + 1..], pat, rep);
        JsReplaceMiss(s, pat, rep, i);
      }
    }
  }

  /** With no occurrence from position `i` on, the rest of the text is kept. */
  lemma {:induction false} JsReplaceAbsent(s: string, pat: string, rep: string, i: nat)
    requires pat != [] && i <= |s| && !Includes(s[i..], pat)
    ensures JsReplaceFrom(s, pat, rep, i) == s[i..]
    decreases |s| - i
  {
    var t := s[i..];
    if |s| - i >= |pat| {
      assert t[..|pat|] == s[i..i + |pat|];
      assert t[1..] == s[i + 1..];
      JsReplaceAbsent(s, pat, rep, i + 1);
      assert t == [s[i]] + s[i + 1..];
    }
  }

  /** One step of the runtime's replace at a position where no match starts. */
  lemma JsReplaceMiss(s: string, pat: string, rep: string, i: nat)
    requires pat != [] && i + |pat| <= |s| && s[i..i + |pat|] != pat
    ensures JsReplaceFrom(s, pat, rep, i) == [s[i]] + JsReplaceFrom(s, pat, rep, i + 1)
  {
  }

  /** One step of the runtime's replace at a position where a match starts. */
  lemma JsReplaceMatch(s: string, pat: string, rep: string, i: nat)
    requires pat != [] && i + |pat| <= |s| && s[i..i + |pat|] == pat
    ensures JsReplaceFrom(s, pat, rep, i)
         == Expand(rep, pat, s[..i], s[i + |pat|..]) + JsReplaceFrom(s, pat, rep, i + |pat|)
  {
  }

  /** Putting back the character at position `i` in front of the rest of `a`. */
  lemma PrependSlice(a: string, i: nat, t: string, u: string)
    requires i < |a|
    ensures [a[i]] + (a[i + 1..] + t + u) == a[i..] + t + u
  {
    assert a[i..] == [a[i]] + a[i + 1..];
  }

  /** Up to the first occurrence the runtime's replace copies the text, and
      the occurrence becomes the expanded replacement. */
  lemma {:induction false} JsReplaceFirst(s: string, a: string, pat: string, b: string, rep: string, i: nat)
    requires pat != [] && s == a + pat + b && i <= |a|
    requires forall j: nat :: i <= j < |a| ==> !OccursAt(s, pat, j)
    ensures JsReplaceFrom(s, pat, rep, i)
         == a[i..] + Expand(rep, pat, a, b) + JsReplaceFrom(s, pat, rep, |a| + |pat|)
    decreases |a| - i
  {
    var e := Expand(rep, pat, a, b);
    var rest := JsReplaceFrom(s, pat, rep, |a| + |pat|);
    if i == |a| {
      assert s[i..i + |pat|] == pat && s[..i] == a && s[i + |pat|..] == b;
      JsReplaceMatch(s, pat, rep, i);
      assert a[i..] == [];
    } else {
      assert !OccursAt(s, pat, i);
      JsReplaceMiss(s, pat, rep, i);
      JsReplaceFirst(s, a, pat, b, rep, i + 1);
      PrependSlice(a, i, e, rest);
    }
  }

  /** `$&` in a replacement stands for the matched text. */
  lemma ExpandMatched(matched: string, before: string, after: string)
    ensures Expand("$&", matched, before, after) == matched
  {
    assert "$&"[2..] == [];
    assert Expand("$&", matched, before, after) == matched + Expand([], matched, before, after);
  }

  /** A placeholder the model does not know, such as `{title}`, is left as
      it is, and `{name}` after it is still filled. */
  lemma UnknownPlaceholderKept(name: string)
    ensures Fill("Dear {title}, {name}!", name) == "Dear {title}, " + name + "!"
  {
    var a, b := "Dear {title}, ", "!";
    var s := a + Placeholder + b;
    assert s == "Dear {title}, {name}!";
    forall j: nat | j < |a|
      ensures !OccursAt(s, Placeholder, j)
    {
      if j != 5 {
        assert s[j..j + |Placeholder|][0] == s[j] == a[j];
      } else {
        assert s[j..j + |Placeholder|][1] == 't';
      }
    }
    NameAppearsVerbatim(a, b, name);
  }

  /** Counterexample family: for a member named `$&` the runtime writes the
      placeholder back where the name belongs, while the literal substitution
      writes the name. */
  lemma DollarAmpersandIsExpanded(a: string, b: string)
    requires '{' !in a && !Includes(b, Placeholder)
    ensures JsReplaceAll(a + Placeholder + b, Placeholder, "$&") == a + Placeholder + b
    ensures Fill(a + Placeholder + b, "$&") == a + "$&" + b
    ensures a + Placeholder + b != a + "$&" + b
  {
    var s := a + Placeholder + b;
    var n := |a| + |Placeholder|;
    BraceFreeNoMatch(a, b);
    JsReplaceFirst(s, a, Placeholder, b, "$&", 0);
    ExpandMatched(Placeholder, a, b);
    assert s[n..] == b;
    JsReplaceAbsent(s, Placeholder, "$&", n);
    assert a[0..] == a;
    NameAppearsVerbatim(a, b, "$&");
    assert |a + Placeholder + b| != |a + "$&" + b|;
  }
}
