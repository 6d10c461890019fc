/** `{name}` placeholders in e-mail templates: substitution of the known
    variables with `String.replace`, then deletion of whatever is left with
    `replaceAll("\\{[^}]*\\}", "")`. */
module Placeholders {
  import opened Wrappers
  import opened Text
  import opened SeqLaws

  /** No '{' is followed, anywhere later, by a '}': nothing the deletion
      pattern could match. */
  predicate NoPlaceholder(s: string) {
    forall i, j :: 0 <= i < j < |s| && s[i] == '{' ==> s[j] != '}'
  }

  predicate NoBraces(s: string) {
    forall i :: 0 <= i < |s| ==> s[i] != '{' && s[i] != '}'
  }

  /** The first '}' at or after `from`, or -1. */
  function FirstClose(s: string, from: nat): (r: int)
    ensures r == -1 <==> forall k :: from <= k < |s| ==> s[k] != '}'
    ensures r != -1 ==> from <= r < |s| && s[r] == '}' && forall k :: from <= k < r ==> s[k] != '}'
    decreases |s| - from
  {
    if from >= |s| then -1
    else if s[from] == '}' then from
    else FirstClose(s, from + 1)
  }

  /** `replaceAll("\\{[^}]*\\}", "")`: scanning left to right, a '{' starts a
      match that ends at the first '}' after it and is deleted; a '{' with no
      '}' after it is kept, as is every other char. */
  function StripPlaceholders(s: string): (r: string)
    ensures forall i :: 0 <= i < |r| ==> r[i] in s
    ensures NoPlaceholder(r)
    decreases |s|
  {
    if |s| == 0 then ""
    else
      var close := FirstClose(s, 1);
      if s[0] == '{' && close != -1 then
        var rest := StripPlaceholders(s[close + 1..]);
        SuffixChars(s, close + 1, rest);
        rest
      else
        var rest := StripPlaceholders(s[1..]);
        KeptChar(s, rest);
        [s[0]] + rest
  }

  /** Chars drawn from a suffix are drawn from the whole text. */
  lemma SuffixChars(s: string, from: nat, rest: string)
    requires from <= |s|
    requires forall i :: 0 <= i < |rest| ==> rest[i] in s[from..]
    ensures forall i :: 0 <= i < |rest| ==> rest[i] in s
  {
    forall i | 0 <= i < |rest| ensures rest[i] in s {
      var k :| from <= k < |s| && s[k] == rest[i] by {
        var j :| 0 <= j < |s[from..]| && s[from..][j] == rest[i];
        assert s[from + j] == rest[i];
      }
    }
  }

  /** Keeping the first char in front of a clean tail gives clean text, when
      that char is not a '{' with a '}' after it. */
  lemma KeptChar(s: string, rest: string)
    requires |s| > 0
    requires forall i :: 0 <= i < |rest| ==> rest[i] in s[1..]
    requires NoPlaceholder(rest)
    requires s[0] == '{' ==> FirstClose(s, 1) == -1
    ensures forall i :: 0 <= i < |[s[0]] + rest| ==> ([s[0]] + rest)[i] in s
    ensures NoPlaceholder([s[0]] + rest)
  {
    var r := [s[0]] + rest;
    SuffixChars(s, 1, rest);
    forall i, j | 0 <= i < j < |r| && r[i] == '{' ensures r[j] != '}' {
      if i == 0 {
        assert r[j] == rest[j - 1] && rest[j - 1] in s[1..];
      } else {
        assert r[i] == rest[i - 1] && r[j] == rest[j - 1];
      }
    }
  }

  /** Text without a placeholder passes through unchanged; in particular the
      deletion is idempotent. */
  lemma {:induction false} StripClean(s: string)
    requires NoPlaceholder(s)
    ensures StripPlaceholders(s) == s
    decreases |s|
  {
    if |s| > 0 {
      if s[0] == '{' {
        assert FirstClose(s, 1) == -1;
      }
      assert NoPlaceholder(s[1..]) by {
        forall i, j | 0 <= i < j < |s[1..]| && s[1..][i] == '{' ensures s[1..][j] != '}' {
          assert s[i + 1] == '{';
        }
      }
      StripClean(s[1..]);
      assert [s[0]] + s[1..] == s;
    }
  }

  lemma StripIdempotent(s: string)
    ensures StripPlaceholders(StripPlaceholders(s)) == StripPlaceholders(s)
  {
    StripClean(StripPlaceholders(s));
  }

  /** A prefix with no '{' is kept as it is. */
  lemma {:induction false} StripKeepsPrefix(a: string, b: string)
    requires forall i :: 0 <= i < |a| ==> a[i] != '{'
    ensures StripPlaceholders(a + b) == a + StripPlaceholders(b)
    decreases |a|
  {
    if |a| > 0 {
      StripKeepsPrefix(a[1..], b);
      StripKeepsPrefixStep(a, b);
    } else {
      assert a + b == b;
    }
  }

  /** One step of `StripKeepsPrefix`: a first char other than '{' is kept. */
  lemma StripKeepsPrefixStep(a: string, b: string)
    requires |a| > 0 && a[0] != '{'
    requires StripPlaceholders(a[1..] + b) == a[1..] + StripPlaceholders(b)
    ensures StripPlaceholders(a + b) == a + StripPlaceholders(b)
  {
    var s := a + b;
    ConcatCons(a, b);
    assert StripPlaceholders(s) == [a[0]] + StripPlaceholders(s[1..]);
    ConcatCons(a, StripPlaceholders(b));
  }

  /** A '{', a run without '}', and the closing '}' are deleted together. */
  lemma StripDeletesSegment(m: string, b: string)
    requires forall i :: 0 <= i < |m| ==> m[i] != '}'
    ensures StripPlaceholders("{" + m + "}" + b) == StripPlaceholders(b)
  {
    var s := "{" + m + "}" + b;
    assert s[|m| + 1] == '}';
    assert forall k :: 1 <= k < |m| + 1 ==> s[k] == m[k - 1];
    assert FirstClose(s, 1) == |m| + 1;
    assert s[|m| + 2..] == b;
  }

  // ---------------------------------------------------------------------------
  // Substitution
  // ---------------------------------------------------------------------------

  /** The template variables in the order the map hands them out. */
  type Variables = seq<(string, Option<string>)>

  function Placeholder(key: string): (p: string)
    ensures |p| > 0 && p[0] == '{'
  {
    "{" + key + "}"
  }

  /** The substitution loop: each `{key}` replaced by its value, a null value
      by the empty string, one variable after another. */
  function SubstituteAll(s: string, vars: Variables): string
    decreases |vars|
  {
    if |vars| == 0 then s
    else SubstituteAll(Replace(s, Placeholder(vars[0].0), vars[0].1.GetOr("")), vars[1..])
  }

  /** `replaceVariables(template, variables)`. */
  function ReplaceVariables(template: Option<string>, vars: Variables): (r: string)
    ensures template.None? ==> r == ""
    ensures NoPlaceholder(r)
  {
    match template
    case None => ""
    case Some(t) => StripPlaceholders(SubstituteAll(t, vars))
  }

  /** Once no '{' is left, the remaining substitutions change nothing. */
  lemma {:induction false} SubstituteAllNoOpen(s: string, vars: Variables)
    requires forall i :: 0 <= i < |s| ==> s[i] != '{'
    ensures SubstituteAll(s, vars) == s
    decreases |vars|
  {
    if |vars| > 0 {
      var p := Placeholder(vars[0].0);
      assert !Contains(s, p);
      ReplaceAbsent(s, p, vars[0].1.GetOr(""));
      SubstituteAllNoOpen(s, vars[1..]);
    }
  }

  /** A known placeholder is replaced by its value: with plain text around a
      single `{key}`, the first variable's value takes its place and nothing
      else changes. */
  lemma SubstituteKnown(a: string, key: string, value: string, b: string, rest: Variables)
    requires NoBraces(a) && NoBraces(value) && NoBraces(b)
    ensures ReplaceVariables(Some(a + Placeholder(key) + b), [(key, Some(value))] + rest) == a + value + b
  {
    var vars := [(key, Some(value))] + rest;
    var p := Placeholder(key);
    ReplaceFirst(a, p, value, b);
    assert !Contains(b, p);
    ReplaceAbsent(b, p, value);
    var once := a + value + b;
    assert forall i :: 0 <= i < |once| ==> once[i] != '{' && once[i] != '}' by {
      forall i | 0 <= i < |once| ensures once[i] != '{' && once[i] != '}' {
        if i < |a| { assert once[i] == a[i]; }
        else if i < |a| + |value| { assert once[i] == value[i - |a|]; }
        else { assert once[i] == b[i - |a| - |value|]; }
      }
    }
    assert vars[1..] == rest;
    SubstituteAllNoOpen(once, rest);
    StripClean(once);
  }

  /** A `{name}` that is not among the variables is deleted. */
  lemma SubstituteUnknown(a: string, name: string, b: string, vars: Variables)
    requires NoBraces(a) && NoBraces(name) && NoBraces(b)
    requires forall v :: v in vars ==> NoBraces(v.0) && v.0 != name
    ensures ReplaceVariables(Some(a + Placeholder(name) + b), vars) == a + b
  {
    var s := a + Placeholder(name) + b;
    SubstituteAllAbsent(a, name, b, vars);
    assert s == a + ("{" + name + "}" + b);
    StripKeepsPrefix(a, "{" + name + "}" + b);
    StripDeletesSegment(name, b);
    StripClean(b);
  }

  /** None of `vars`' placeholders occurs in a template whose only
      placeholder is `{name}`, so substitution leaves it alone. */
  lemma {:induction false} SubstituteAllAbsent(a: string, name: string, b: string, vars: Variables)
    requires NoBraces(a) && NoBraces(name) && NoBraces(b)
    requires forall v :: v in vars ==> NoBraces(v.0) && v.0 != name
    ensures SubstituteAll(a + Placeholder(name) + b, vars) == a + Placeholder(name) + b
    decreases |vars|
  {
    if |vars| > 0 {
      var s := a + Placeholder(name) + b;
      assert vars[0] in vars;
      OnlyOnePlaceholder(a, name, b, vars[0].0);
      ReplaceAbsent(s, Placeholder(vars[0].0), vars[0].1.GetOr(""));
      assert forall v :: v in vars[1..] ==> v in vars;
      SubstituteAllAbsent(a, name, b, vars[1..]);
    }
  }

  /** The placeholder of a different brace-free key does not occur. */
  lemma OnlyOnePlaceholder(a: string, name: string, b: string, key: string)
    requires NoBraces(a) && NoBraces(name) && NoBraces(b) && NoBraces(key) && key != name
    ensures !Contains(a + Placeholder(name) + b, Placeholder(key))
  {
    var s := a + Placeholder(name) + b;
    var p := Placeholder(key);
    if Contains(s, p) {
      var i :| 0 <= i <= |s| - |p| && OccursAt(s, p, i);
      assert s[i] == s[i..i + |p|][0];
      OpenOnlyAt(a, name, b, i);
      var t := name + "}" + b;
      assert s[|a| + 1..] == t;
      assert t[..|key| + 1] == key + "}" by {
        assert s[i..i + |p|] == p;
        assert s[i + 1..i + |p|] == p[1..] == key + "}";
      }
      KeyBeforeClose(name, b, key);
    }
  }

  /** In `a{name}b` with brace-free parts, the only '{' is the one at |a|. */
  lemma OpenOnlyAt(a: string, name: string, b: string, i: int)
    requires NoBraces(a) && NoBraces(name) && NoBraces(b)
    requires 0 <= i < |a + Placeholder(name) + b| && (a + Placeholder(name) + b)[i] == '{'
    ensures i == |a|
  {
  }

  /** If `name}b` begins with `key}` and neither key nor name has a brace,
      the two keys are equal: the first '}' ends both. */
  lemma KeyBeforeClose(name: string, b: string, key: string)
    requires NoBraces(name) && NoBraces(key)
    requires |key| + 1 <= |name + "}" + b| && (name + "}" + b)[..|key| + 1] == key + "}"
    ensures key == name
  {
    var t := name + "}" + b;
    var k := key + "}";
    assert t[|key|] == k[|key|] == '}';
    assert forall j :: 0 <= j < |key| ==> t[j] == k[j] == key[j] != '}';
    assert t[|name|] == '}';
    assert forall j :: 0 <= j < |name| ==> t[j] == name[j] != '}';
    assert FirstClose(t, 0) == |key| == |name|;
    assert t[..|key|] == name;
    assert k[..|key|] == key;
  }
}
