/** The email-to-label normalisation that app.py writes out three times
    (once in each job filter and once when a job is labelled):
    `email.replace("@", "_at_").replace(".", "")`.
    It is modelled once, as the two passes the expression makes. */
module Identity {

  /** The text every '@' is replaced by in the first pass. */
  const AtReplacement: string := "_at_"

  /** First pass, Python's `s.replace("@", "_at_")`: every '@' becomes "_at_",
      every other character is kept, in order. */
  function ReplaceAt(s: string): (r: string)
    ensures '@' !in r
    ensures '.' in r <==> '.' in s
  {
    if s == [] then []
    else (if s[0] == '@' then AtReplacement else [s[0]]) + ReplaceAt(s[1..])
  }

  /** Second pass, Python's `s.replace(".", "")`: every '.' is dropped. */
  function RemoveDots(s: string): (r: string)
    ensures '.' !in r
    ensures '@' in r <==> '@' in s
  {
    if s == [] then []
    else (if s[0] == '.' then [] else [s[0]]) + RemoveDots(s[1..])
  }

  /** The label derived from an email address: the `user` label a job is
      submitted with, and the value both job filters compare against. */
  function Normalize(email: string): (userLabel: string)
    ensures '@' !in userLabel && '.' !in userLabel
  {
    RemoveDots(ReplaceAt(email))
  }

  /** What one character of the email contributes to the label. */
  function NormalizeChar(c: char): string {
    if c == '@' then AtReplacement else if c == '.' then [] else [c]
  }

  lemma {:induction false} ReplaceAtAppend(a: string, b: string)
    ensures ReplaceAt(a + b) == ReplaceAt(a) + ReplaceAt(b)
  {
    if a != [] {
      assert (a + b)[0] == a[0] && (a + b)[1..] == a[1..] + b;
      ReplaceAtAppend(a[1..], b);
    } else {
      assert a + b == b;
    }
  }

  lemma {:induction false} RemoveDotsAppend(a: string, b: string)
    ensures RemoveDots(a + b) == RemoveDots(a) + RemoveDots(b)
  {
    if a != [] {
      assert (a + b)[0] == a[0] && (a + b)[1..] == a[1..] + b;
      RemoveDotsAppend(a[1..], b);
    } else {
      assert a + b == b;
    }
  }

  /** Normalisation works character by character: the label of a
      concatenation is the concatenation of the labels. Together with
      NormalizeSingle this determines Normalize completely. */
  lemma NormalizeAppend(a: string, b: string)
    ensures Normalize(a + b) == Normalize(a) + Normalize(b)
  {
    ReplaceAtAppend(a, b);
    RemoveDotsAppend(ReplaceAt(a), ReplaceAt(b));
  }

  /** A single character: '@' gives "_at_", '.' gives nothing, anything else
      is kept as it is. */
  lemma NormalizeSingle(c: char)
    ensures Normalize([c]) == NormalizeChar(c)
  {
    assert [c][1..] == [];
    assert ReplaceAt([c]) == (if c == '@' then AtReplacement else [c]) + ReplaceAt([]);
    if c == '@' {
      assert ReplaceAt([c]) == AtReplacement;
      KeepsPlainText(AtReplacement);
      assert RemoveDots(AtReplacement) == AtReplacement;
    } else {
      assert RemoveDots([c]) == (if c == '.' then [] else [c]) + RemoveDots([]);
    }
  }

  /** An email is its own label exactly when it holds neither '@' nor '.'. */
  lemma {:induction false} NormalizeFixedPoint(s: string)
    ensures Normalize(s) == s <==> '@' !in s && '.' !in s
  {
    if '@' !in s && '.' !in s {
      KeepsPlainText(s);
    }
  }

  lemma {:induction false} KeepsPlainText(s: string)
    requires '@' !in s && '.' !in s
    ensures ReplaceAt(s) == s && RemoveDots(s) == s
  {
    if s != [] {
      assert s == [s[0]] + s[1..];
      KeepsPlainText(s[1..]);
    }
  }

  /** Normalising a label a second time leaves it unchanged: a label is
      already in normal form. */
  lemma NormalizeIdempotent(email: string)
    ensures Normalize(Normalize(email)) == Normalize(email)
  {
    NormalizeFixedPoint(Normalize(email));
  }

  /** Each '@' adds three characters, each '.' removes one. */
  lemma NormalizeLength(email: string)
    ensures |Normalize(email)| == |email| + 3 * multiset(email)['@'] - multiset(email)['.']
  {
    ReplaceAtCounts(email);
    RemoveDotsLength(ReplaceAt(email));
  }

  lemma {:induction false} RemoveDotsLength(s: string)
    ensures |RemoveDots(s)| == |s| - multiset(s)['.']
  {
    if s != [] {
      assert s == [s[0]] + s[1..];
      RemoveDotsLength(s[1..]);
    }
  }

  lemma {:induction false} ReplaceAtCounts(s: string)
    ensures |ReplaceAt(s)| == |s| + 3 * multiset(s)['@']
    ensures multiset(ReplaceAt(s))['.'] == multiset(s)['.']
  {
    if s != [] {
      assert s == [s[0]] + s[1..];
      ReplaceAtCounts(s[1..]);
      var head := if s[0] == '@' then AtReplacement else [s[0]];
      assert ReplaceAt(s) == head + ReplaceAt(s[1..]);
      assert |head| == 1 + 3 * multiset{s[0]}['@'];
      assert multiset(head)['.'] == multiset{s[0]}['.'];
    }
  }

  /** Normalisation is not injective: dropping a '.' from an address, or
      spelling an '@' out as "_at_", gives a different address with the same
      label, and the two then share every job labelled with it. */
  lemma NormalizeIgnoresDot(a: string, b: string)
    ensures a + ['.'] + b != a + b
    ensures Normalize(a + ['.'] + b) == Normalize(a + b)
  {
    assert |a + ['.'] + b| != |a + b|;
    NormalizeAppend(a + ['.'], b);
    NormalizeAppend(a, ['.']);
    NormalizeSingle('.');
    assert Normalize(a + ['.']) == Normalize(a) + [] == Normalize(a);
    NormalizeAppend(a, b);
  }

  lemma NormalizeAtSpelledOut(a: string, b: string)
    ensures a + ['@'] + b != a + AtReplacement + b
    ensures Normalize(a + ['@'] + b) == Normalize(a + AtReplacement + b)
  {
    assert |a + ['@'] + b| != |a + AtReplacement + b|;
    NormalizeAppend(a + ['@'], b);
    NormalizeAppend(a, ['@']);
    NormalizeSingle('@');
    NormalizeAppend(a + AtReplacement, b);
    NormalizeAppend(a, AtReplacement);
    NormalizeFixedPoint(AtReplacement);
  }
}
