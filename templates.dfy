/** `loadTemplate` (src/project-initializer.ts:32-52): a template file is read from the bundled
    `templates/project-files` directory and every `{{key}}` placeholder is replaced by its value,
    one variable after another in entry order. */
module Templates {
  import opened Wrappers

  /** The placeholder a variable named `key` fills in. */
  function Placeholder(key: string): (p: string)
    ensures |p| == |key| + 4 && p[0] == '{' && p[1] == '{'
  {
    "{{" + key + "}}"
  }

  /** `pat` occurs in `s` at position `i`. */
  predicate MatchAt(s: string, i: int, pat: string) {
    0 <= i && i + |pat| <= |s| && s[i..i + |pat|] == pat
  }

  /** Every occurrence of `pat`, scanning from the left and never overlapping, replaced by `rep`:
      what a global regular expression made of literal characters does. */
  function ReplaceAll(s: string, pat: string, rep: string): string
    requires pat != []
    decreases |s|
  {
    if |s| < |pat| then s
    else if s[..|pat|] == pat then rep + ReplaceAll(s[|pat|..], pat, rep)
    else [s[0]] + ReplaceAll(s[1..], pat, rep)
  }

  /** A stretch in front of which the pattern never starts is copied unchanged. */
  lemma {:induction false} ReplaceAllSkips(a: string, b: string, pat: string, rep: string)
    requires pat != []
    requires forall i :: 0 <= i < |a| ==> !MatchAt(a + b, i, pat)
    ensures ReplaceAll(a + b, pat, rep) == a + ReplaceAll(b, pat, rep)
    decreases |a|
  {
    var s := a + b;
    if a != [] {
      assert !MatchAt(s, 0, pat);
      if |s| >= |pat| {
        assert s[1..] == a[1..] + b;
        forall i | 0 <= i < |a[1..]| ensures !MatchAt(a[1..] + b, i, pat) {
          assert !MatchAt(s, i + 1, pat);
          if i + |pat| <= |s[1..]| {
            assert s[1..][i..i + |pat|] == s[i + 1..i + 1 + |pat|];
          }
        }
        ReplaceAllSkips(a[1..], b, pat, rep);
        assert s == [a[0]] + (a[1..] + b);
        assert a == [a[0]] + a[1..];
      } else {
        assert |b| < |pat|;
      }
    } else {
      assert s == b;
    }
  }

  /** A string in which the pattern does not occur is left as it is. */
  lemma ReplaceAllNoMatch(s: string, pat: string, rep: string)
    requires pat != []
    requires forall i :: 0 <= i < |s| ==> !MatchAt(s, i, pat)
    ensures ReplaceAll(s, pat, rep) == s
  {
    assert s + [] == s;
    ReplaceAllSkips(s, [], pat, rep);
  }

  /** An occurrence at the front is replaced, and the scan resumes after it. */
  lemma ReplaceAllHit(pat: string, rep: string, b: string)
    requires pat != []
    ensures ReplaceAll(pat + b, pat, rep) == rep + ReplaceAll(b, pat, rep)
  {
    assert (pat + b)[..|pat|] == pat;
    assert (pat + b)[|pat|..] == b;
  }

  /** The substitution loop of `loadTemplate`: one global replacement per variable, in entry order.
      Defined from the last variable, so that a loop over the variables extends it one step at a time. */
  function Substitute(t: string, vars: seq<(string, string)>): string
    decreases |vars|
  {
    if vars == [] then t
    else
      var (key, value) := vars[|vars| - 1];
      ReplaceAll(Substitute(t, vars[..|vars| - 1]), Placeholder(key), value)
  }

  /** A template in which no variable's placeholder occurs comes back unchanged;
      in particular, with no variables the result is the template itself. */
  lemma {:induction false} SubstituteUntouched(t: string, vars: seq<(string, string)>)
    requires forall j, i :: 0 <= j < |vars| && 0 <= i < |t| ==> !MatchAt(t, i, Placeholder(vars[j].0))
    ensures Substitute(t, vars) == t
    decreases |vars|
  {
    if vars != [] {
      var init := vars[..|vars| - 1];
      forall j, i | 0 <= j < |init| && 0 <= i < |t| ensures !MatchAt(t, i, Placeholder(init[j].0)) {
        assert init[j] == vars[j];
      }
      SubstituteUntouched(t, init);
      var key := vars[|vars| - 1].0;
      forall i | 0 <= i < |t| ensures !MatchAt(t, i, Placeholder(key)) {
        assert !MatchAt(t, i, Placeholder(vars[|vars| - 1].0));
      }
      ReplaceAllNoMatch(t, Placeholder(key), vars[|vars| - 1].1);
    }
  }

  /** A name fit to appear inside a placeholder: no braces. */
  predicate PlainKey(k: string) {
    '{' !in k && '}' !in k
  }

  /** Where `pat` occurs, each of its characters is in place. */
  lemma MatchAtChar(s: string, i: int, pat: string, j: int)
    requires 0 <= j < |pat|
    ensures MatchAt(s, i, pat) ==> s[i + j] == pat[j]
  {
    if MatchAt(s, i, pat) {
      assert s[i..i + |pat|][j] == s[i + j];
    }
  }

  /** The text `a + {{name}} + b`, with no braces in `a` or `b`, holds no placeholder of another plain key. */
  lemma OtherPlaceholderAbsent(a: string, name: string, b: string, key: string)
    requires '{' !in a && '{' !in b && PlainKey(name) && PlainKey(key) && key != name
    ensures forall i :: 0 <= i < |a + Placeholder(name) + b| ==> !MatchAt(a + Placeholder(name) + b, i, Placeholder(key))
  {
    var s := a + Placeholder(name) + b;
    var p := Placeholder(key);
    forall i | 0 <= i < |s| ensures !MatchAt(s, i, p) {
      MatchAtChar(s, i, p, 0);
      if i < |a| {
        assert s[i] == a[i] != '{';
      } else if i == |a| {
        if |key| < |name| {
          MatchAtChar(s, i, p, |key| + 2);
          assert s[i + |key| + 2] == name[|key|] != '}';
        } else if |key| > |name| {
          MatchAtChar(s, i, p, |name| + 2);
          assert s[i + |name| + 2] == '}' != key[|name|];
        } else if i + |p| <= |s| {
          assert s[i..i + |p|] == Placeholder(name);
          assert Placeholder(name)[2..|name| + 2] == name != key == p[2..|key| + 2];
        }
      } else if i == |a| + 1 {
        MatchAtChar(s, i, p, 1);
        assert s[i + 1] == (if name == [] then '}' else name[0]) != '{';
      } else if i < |a| + 2 + |name| {
        assert s[i] == name[i - |a| - 2] != '{';
      } else if i < |a| + 4 + |name| {
        assert s[i] == '}';
      } else {
        assert s[i] == b[i - |a| - 4 - |name|] != '{';
      }
    }
  }

  /** A template `a + {{key}} + b` whose surrounding text holds no brace: the placeholder of a variable
      is replaced by its value, and the placeholder of a name with no variable stays verbatim. */
  lemma SubstituteOne(a: string, key: string, b: string, value: string, other: string)
    requires '{' !in a && '{' !in b && PlainKey(key) && PlainKey(other) && other != key
    ensures Substitute(a + Placeholder(key) + b, [(key, value)]) == a + value + b
    ensures Substitute(a + Placeholder(key) + b, [(other, value)]) == a + Placeholder(key) + b
  {
    SubstituteHit(a, key, b, value);
    SubstituteMiss(a, key, b, value, other);
  }

  /** The placeholder of the one variable is replaced by its value. */
  lemma SubstituteHit(a: string, key: string, b: string, value: string)
    requires '{' !in a && '{' !in b
    ensures Substitute(a + Placeholder(key) + b, [(key, value)]) == a + value + b
  {
    var p := Placeholder(key);
    assert [(key, value)][..0] == [];
    forall i | 0 <= i < |a| ensures !MatchAt(a + (p + b), i, p) {
      assert (a + (p + b))[i] == a[i] != '{';
      MatchAtChar(a + (p + b), i, p, 0);
    }
    assert a + p + b == a + (p + b);
    ReplaceAllSkips(a, p + b, p, value);
    ReplaceAllHit(p, value, b);
    forall i | 0 <= i < |b| ensures !MatchAt(b, i, p) {
      assert b[i] != '{';
      MatchAtChar(b, i, p, 0);
    }
    ReplaceAllNoMatch(b, p, value);
  }

  /** A placeholder of another plain name is left as it is. */
  lemma SubstituteMiss(a: string, key: string, b: string, value: string, other: string)
    requires '{' !in a && '{' !in b && PlainKey(key) && PlainKey(other) && other != key
    ensures Substitute(a + Placeholder(key) + b, [(other, value)]) == a + Placeholder(key) + b
  {
    assert [(other, value)][..0] == [];
    OtherPlaceholderAbsent(a, key, b, other);
    ReplaceAllNoMatch(a + Placeholder(key) + b, Placeholder(other), value);
  }

  /** The pieces of a text with `sep` between each two of them. */
  function JoinWith(pieces: seq<string>, sep: string): string
    requires |pieces| >= 1
    decreases |pieces|
  {
    if |pieces| == 1 then pieces[0] else pieces[0] + sep + JoinWith(pieces[1..], sep)
  }

  /** A text with no brace holds no placeholder at all. */
  lemma BraceFreeNoPlaceholder(q: string, key: string)
    requires '{' !in q
    ensures forall i :: 0 <= i < |q| ==> !MatchAt(q, i, Placeholder(key))
  {
    forall i | 0 <= i < |q| ensures !MatchAt(q, i, Placeholder(key)) {
      MatchAtChar(q, i, Placeholder(key), 0);
    }
  }

  /** The global replacement replaces every occurrence: a text made of brace-free pieces separated
      by the placeholder of `key` becomes the same pieces separated by the value. */
  lemma {:induction false} ReplaceEvery(pieces: seq<string>, key: string, value: string)
    requires |pieces| >= 1
    requires forall j :: 0 <= j < |pieces| ==> '{' !in pieces[j]
    ensures ReplaceAll(JoinWith(pieces, Placeholder(key)), Placeholder(key), value) == JoinWith(pieces, value)
    decreases |pieces|
  {
    var p := Placeholder(key);
    var q := pieces[0];
    if |pieces| == 1 {
      BraceFreeNoPlaceholder(q, key);
      ReplaceAllNoMatch(q, p, value);
    } else {
      var rest := JoinWith(pieces[1..], p);
      forall i | 0 <= i < |q| ensures !MatchAt(q + (p + rest), i, p) {
        assert (q + (p + rest))[i] == q[i] != '{';
        MatchAtChar(q + (p + rest), i, p, 0);
      }
      ReplaceAllSkips(q, p + rest, p, value);
      ReplaceAllHit(p, value, rest);
      forall j | 0 <= j < |pieces[1..]| ensures '{' !in pieces[1..][j] {
        assert pieces[1..][j] == pieces[j + 1];
      }
      ReplaceEvery(pieces[1..], key, value);
      assert JoinWith(pieces, p) == q + (p + rest);
    }
  }

  /** `loadTemplate` with one variable replaces every occurrence of its placeholder. */
  lemma SubstituteEvery(pieces: seq<string>, key: string, value: string)
    requires |pieces| >= 1
    requires forall j :: 0 <= j < |pieces| ==> '{' !in pieces[j]
    ensures Substitute(JoinWith(pieces, Placeholder(key)), [(key, value)]) == JoinWith(pieces, value)
  {
    assert [(key, value)][..0] == [];
    ReplaceEvery(pieces, key, value);
  }

  /** A placeholder whose name has no variable stays verbatim, whatever the other variables are. */
  lemma SubstituteKeepsUnknown(a: string, key: string, b: string, vars: seq<(string, string)>)
    requires '{' !in a && '{' !in b && PlainKey(key)
    requires forall j :: 0 <= j < |vars| ==> PlainKey(vars[j].0) && vars[j].0 != key
    ensures Substitute(a + Placeholder(key) + b, vars) == a + Placeholder(key) + b
  {
    var t := a + Placeholder(key) + b;
    forall j, i | 0 <= j < |vars| && 0 <= i < |t| ensures !MatchAt(t, i, Placeholder(vars[j].0)) {
      OtherPlaceholderAbsent(a, key, b, vars[j].0);
    }
    SubstituteUntouched(t, vars);
  }

  /** Two variables, each with its own placeholder in the template: the first replacement leaves the
      second placeholder alone, and each placeholder ends up replaced by its own value. */
  lemma SubstituteTwo(a: string, k1: string, b: string, k2: string, c: string, v1: string, v2: string)
    requires '{' !in a && '{' !in b && '{' !in c && '{' !in v1
    requires PlainKey(k1) && PlainKey(k2) && k1 != k2
    ensures Substitute(a + Placeholder(k1) + b + Placeholder(k2) + c, [(k1, v1), (k2, v2)]) == a + v1 + b + v2 + c
  {
    var t := a + Placeholder(k1) + b + Placeholder(k2) + c;
    var vars := [(k1, v1), (k2, v2)];
    var mid := a + v1 + b;
    ReplaceFirstOfTwo(a, k1, b, k2, c, v1);
    assert vars[..1] == [(k1, v1)] && vars[..1][..0] == [];
    assert Substitute(t, vars[..1]) == mid + Placeholder(k2) + c;
    SubstituteHit(mid, k2, c, v2);
    assert [(k2, v2)][..0] == [];
    assert Substitute(mid + Placeholder(k2) + c, [(k2, v2)]) == ReplaceAll(mid + Placeholder(k2) + c, Placeholder(k2), v2);
  }

  /** The replacement of the first variable in a two-variable template. */
  lemma ReplaceFirstOfTwo(a: string, k1: string, b: string, k2: string, c: string, v1: string)
    requires '{' !in a && '{' !in b && '{' !in c
    requires PlainKey(k1) && PlainKey(k2) && k1 != k2
    ensures ReplaceAll(a + Placeholder(k1) + b + Placeholder(k2) + c, Placeholder(k1), v1) == a + v1 + b + Placeholder(k2) + c
  {
    var p1 := Placeholder(k1);
    var rest := b + Placeholder(k2) + c;
    assert a + p1 + b + Placeholder(k2) + c == a + (p1 + rest);
    forall i | 0 <= i < |a| ensures !MatchAt(a + (p1 + rest), i, p1) {
      assert (a + (p1 + rest))[i] == a[i] != '{';
      MatchAtChar(a + (p1 + rest), i, p1, 0);
    }
    ReplaceAllSkips(a, p1 + rest, p1, v1);
    ReplaceAllHit(p1, v1, rest);
    OtherPlaceholderAbsent(b, k2, c, k1);
    ReplaceAllNoMatch(rest, p1, v1);
    assert a + (v1 + rest) == a + v1 + b + Placeholder(k2) + c;
  }

  /** Why loading a template fails. */
  datatype TemplateError = TemplateNotFound(name: string)

  /** `loadTemplate`: the named asset, or `TemplateNotFound` when the directory has none; the
      variables are applied one by one, in order, by the loop of src/project-initializer.ts:42-45. */
  method LoadTemplate(assets: map<string, string>, name: string, vars: seq<(string, string)>)
    returns (r: Result<string, TemplateError>)
    ensures name !in assets <==> r == Err(TemplateNotFound(name))
    ensures name in assets ==> r == Ok(Substitute(assets[name], vars))
  {
    if name !in assets {
      return Err(TemplateNotFound(name));
    }
    var content := assets[name];
    var i := 0;
    while i < |vars|
      invariant 0 <= i <= |vars|
      invariant content == Substitute(assets[name], vars[..i])
    {
      assert vars[..i + 1][..i] == vars[..i];
      var (key, value) := vars[i];
      content := ReplaceAll(content, Placeholder(key), value);
      i := i + 1;
    }
    assert vars[..|vars|] == vars;
    return Ok(content);
  }

  /** The same load as a value, for the parts of the model that cannot call a method. */
  function Render(assets: map<string, string>, name: string, vars: seq<(string, string)>): (r: Result<string, TemplateError>)
    ensures r.Err? <==> name !in assets
  {
    if name in assets then Ok(Substitute(assets[name], vars)) else Err(TemplateNotFound(name))
  }
}
