/** The keyword parsing app.py does when "Submit Job" is pressed:
    `[s.strip() for s in input_text.split(",") if s.strip()]`, followed by
    the check that at least one keyword is left. */
module KeywordInput {

  const Separator: char := ','

  /** Python's `str.isspace` on one character: the code points `str.strip()`
      removes (ASCII whitespace, the four information separators, NEXT LINE,
      and the Unicode space and line/paragraph separator characters). */
  predicate IsSpace(c: char) {
    || '\t' <= c <= '\r'
    || '\U{1C}' <= c <= ' '
    || c == '\U{85}' || c == '\U{A0}' || c == '\U{1680}'
    || '\U{2000}' <= c <= '\U{200A}'
    || c == '\U{2028}' || c == '\U{2029}' || c == '\U{202F}' || c == '\U{205F}' || c == '\U{3000}'
  }

  /** Every character of `s` is whitespace. */
  predicate AllSpace(s: string) {
    forall i :: 0 <= i < |s| ==> IsSpace(s[i])
  }

  /** Python's `s.split(",")`: the pieces between the commas, in order; an
      input with k commas gives k + 1 pieces, so "" gives [""]. */
  function Split(s: string): (pieces: seq<string>)
    ensures |pieces| >= 1
  {
    if s == [] then [[]]
    else
      var rest := Split(s[1..]);
      if s[0] == Separator then [[]] + rest
      else [[s[0]] + rest[0]] + rest[1..]
  }

  /** Split yields one piece more than there are commas, and no piece holds
      a comma. */
  lemma {:induction false} SplitPieces(s: string)
    ensures |Split(s)| == multiset(s)[Separator] + 1
    ensures forall p :: p in Split(s) ==> Separator !in p
  {
    if s != [] {
      SplitPieces(s[1..]);
      assert s == [s[0]] + s[1..];
      var rest := Split(s[1..]);
      if s[0] != Separator {
        assert rest == [rest[0]] + rest[1..];
        assert Split(s) == [[s[0]] + rest[0]] + rest[1..];
      }
    }
  }

  /** The inverse of Split: the pieces put back together with commas. */
  function Join(pieces: seq<string>): string
    requires |pieces| >= 1
  {
    if |pieces| == 1 then pieces[0]
    else pieces[0] + [Separator] + Join(pieces[1..])
  }

  /** Splitting and joining again gives the input back. */
  lemma {:induction false} JoinSplit(s: string)
    ensures Join(Split(s)) == s
  {
    if s != [] {
      JoinSplit(s[1..]);
      var rest := Split(s[1..]);
      if s[0] == Separator {
        assert Split(s)[1..] == rest;
      } else if |rest| == 1 {
        assert Join(Split(s)) == [s[0]] + rest[0];
      } else {
        var p := Split(s);
        assert p[0] == [s[0]] + rest[0] && p[1..] == rest[1..];
        assert Join(p) == [s[0]] + rest[0] + [Separator] + Join(rest[1..]);
      }
    }
  }

  /** Joining comma-free pieces and splitting again gives the pieces back. */
  lemma {:induction false} SplitJoin(pieces: seq<string>)
    requires |pieces| >= 1
    requires forall p :: p in pieces ==> Separator !in p
    ensures Split(Join(pieces)) == pieces
  {
    if |pieces| == 1 {
      SplitNoSeparator(pieces[0]);
    } else {
      var p, rest := pieces[0], pieces[1..];
      assert forall q :: q in rest ==> q in pieces;
      SplitJoin(rest);
      SplitAppend(p, Join(rest));
      SplitNoSeparator(p);
      HeadTail(pieces);
    }
  }

  /** A comma-free text is one piece. */
  lemma {:induction false} SplitNoSeparator(s: string)
    requires Separator !in s
    ensures Split(s) == [s]
  {
    if s != [] {
      SplitNoSeparator(s[1..]);
      assert s == [s[0]] + s[1..];
    }
  }

  /** A comma splits the text into the pieces before it and the pieces after. */
  lemma {:induction false} SplitAppend(a: string, b: string)
    ensures Split(a + [Separator] + b) == Split(a) + Split(b)
  {
    if a == [] {
      assert a + [Separator] + b == [Separator] + b;
      SplitConsSeparator(b);
    } else {
      var c, t := a[0], a[1..];
      var tail := t + [Separator] + b;
      assert a == [c] + t;
      assert a + [Separator] + b == [c] + tail;
      SplitAppend(t, b);
      SplitConsStep(c, t, tail, Split(b));
    }
  }

  /** Splitting with one more leading character. */
  lemma SplitConsStep(c: char, t: string, tail: string, rb: seq<string>)
    requires Split(tail) == Split(t) + rb
    ensures Split([c] + tail) == Split([c] + t) + rb
  {
    if c == Separator {
      SplitConsSeparator(tail);
      SplitConsSeparator(t);
    } else {
      SplitConsChar(c, tail);
      SplitConsChar(c, t);
      PrependToFirst(c, Split(t), rb);
    }
  }

  lemma SplitConsSeparator(t: string)
    ensures Split([Separator] + t) == [[]] + Split(t)
  {
    var s := [Separator] + t;
    assert s[0] == Separator && s[1..] == t;
  }

  lemma SplitConsChar(c: char, t: string)
    requires c != Separator
    ensures Split([c] + t) == [[c] + Split(t)[0]] + Split(t)[1..]
  {
    var s := [c] + t;
    assert s[0] == c && s[1..] == t;
  }

  /** Adding an element to the first piece commutes with appending pieces;
      stated over any element type so that its proof does not look inside
      the pieces. */
  lemma PrependToFirst<T>(c: T, rt: seq<seq<T>>, rb: seq<seq<T>>)
    requires |rt| >= 1
    ensures [[c] + (rt + rb)[0]] + (rt + rb)[1..] == ([[c] + rt[0]] + rt[1..]) + rb
  {
    assert (rt + rb)[0] == rt[0];
    assert (rt + rb)[1..] == rt[1..] + rb;
    ConcatAssoc([[c] + rt[0]], rt[1..], rb);
  }

  /** A non-empty sequence is its head followed by its tail. */
  lemma HeadTail<T>(s: seq<T>)
    requires |s| >= 1
    ensures [s[0]] + s[1..] == s
  {
  }

  /** Python's `s.lstrip()`: `s` without its leading whitespace. */
  function TrimStart(s: string): (r: string)
    ensures |r| <= |s| && r == s[|s| - |r|..]
    ensures AllSpace(s[..|s| - |r|])
    ensures r == [] || !IsSpace(r[0])
  {
    s[StartOfText(s, 0)..]
  }

  /** The index of the first non-whitespace character of `s` at or after
      `i`, or `|s|` if there is none. */
  function StartOfText(s: string, i: nat): (b: nat)
    requires i <= |s|
    ensures i <= b <= |s|
    ensures forall j :: i <= j < b ==> IsSpace(s[j])
    ensures b == |s| || !IsSpace(s[b])
    decreases |s| - i
  {
    if i == |s| || !IsSpace(s[i]) then i else StartOfText(s, i + 1)
  }

  /** Python's `s.rstrip()`: `s` without its trailing whitespace. */
  function TrimEnd(s: string): (r: string)
    ensures |r| <= |s| && r == s[..|r|]
    ensures AllSpace(s[|r|..])
    ensures r == [] || !IsSpace(r[|r| - 1])
  {
    s[..EndOfText(s, |s|)]
  }

  /** The length of `s[..n]` without its trailing whitespace. */
  function EndOfText(s: string, n: nat): (e: nat)
    requires n <= |s|
    ensures e <= n
    ensures forall i :: e <= i < n ==> IsSpace(s[i])
    ensures e == 0 || !IsSpace(s[e - 1])
  {
    if n == 0 || !IsSpace(s[n - 1]) then n else EndOfText(s, n - 1)
  }

  /** Python's `s.strip()`: the slice of `s` left once the whitespace at
      both ends is cut off. It is empty exactly when `s` is all whitespace. */
  function Strip(s: string): (r: string)
    ensures r == [] || (!IsSpace(r[0]) && !IsSpace(r[|r| - 1]))
  {
    TrimEnd(TrimStart(s))
  }

  /** Where the slice Strip keeps begins: after the leading whitespace. */
  function StripStart(s: string): (lo: nat)
    ensures lo <= |s| - |Strip(s)|
  {
    |s| - |TrimStart(s)|
  }

  /** What Strip keeps is a slice of its input with only whitespace cut off
      on either side; it keeps nothing exactly when the input is all
      whitespace. */
  lemma StripSlice(s: string)
    ensures Strip(s) == s[StripStart(s)..StripStart(s) + |Strip(s)|]
    ensures AllSpace(s[..StripStart(s)]) && AllSpace(s[StripStart(s) + |Strip(s)|..])
    ensures Strip(s) == [] <==> AllSpace(s)
  {
    StripSliceBounds(s);
    StripEmpty(s);
  }

  lemma StripSliceBounds(s: string)
    ensures Strip(s) == s[StripStart(s)..StripStart(s) + |Strip(s)|]
    ensures AllSpace(s[..StripStart(s)]) && AllSpace(s[StripStart(s) + |Strip(s)|..])
  {
    var t := TrimStart(s);
    var r := TrimEnd(t);
    var lo := |s| - |t|;
    assert t == s[lo..] && r == t[..|r|];
    assert r == s[lo..lo + |r|];
    assert s[lo + |r|..] == t[|r|..];
  }

  lemma StripEmpty(s: string)
    ensures Strip(s) == [] <==> AllSpace(s)
  {
    var t := TrimStart(s);
    var r := TrimEnd(t);
    var lo := |s| - |t|;
    assert t == s[lo..] && r == t[..|r|];
    if r == [] {
      assert t[|r|..] == t;
      assert s == s[..lo] + t;
      AllSpaceAppend(s[..lo], t);
    } else {
      assert r[0] == s[lo];
    }
  }

  lemma AllSpaceAppend(a: string, b: string)
    ensures AllSpace(a + b) <==> AllSpace(a) && AllSpace(b)
  {
    var ab := a + b;
    if AllSpace(a) && AllSpace(b) {
      assert forall i :: |a| <= i < |ab| ==> ab[i] == b[i - |a|];
    }
    if AllSpace(ab) {
      assert forall i :: 0 <= i < |a| ==> a[i] == ab[i];
      assert forall i :: 0 <= i < |b| ==> b[i] == ab[i + |a|];
    }
  }

  /** Strip only removes characters. */
  lemma StripChars(s: string)
    ensures forall c :: c in Strip(s) ==> c in s
  {
    StripSlice(s);
    var lo := StripStart(s);
    forall c | c in Strip(s) ensures c in s {
      var i :| 0 <= i < |Strip(s)| && Strip(s)[i] == c;
      assert s[lo + i] == c;
    }
  }

  /** The keyword list built from the text field: every piece between commas,
      stripped, with the pieces that strip to nothing dropped. */
  function ParseKeywords(inputText: string): (keywords: seq<string>)
    ensures forall k :: k in keywords ==> Trimmed(k)
  {
    StrippedNonBlankTrimmed(Split(inputText));
    StrippedNonBlank(Split(inputText))
  }

  lemma {:induction false} StrippedNonBlankTrimmed(pieces: seq<string>)
    ensures forall k :: k in StrippedNonBlank(pieces) ==> Trimmed(k)
  {
    if pieces != [] {
      var p, rest := pieces[0], pieces[1..];
      assert pieces == [p] + rest;
      StrippedNonBlankCons(p, rest);
      StrippedNonBlankTrimmed(rest);
      KeptPieceTrimmed(p);
    }
  }

  /** A keyword: non-empty, with no whitespace at either end. */
  predicate Trimmed(k: string) {
    k != [] && !IsSpace(k[0]) && !IsSpace(k[|k| - 1])
  }

  lemma KeptPieceTrimmed(p: string)
    ensures forall k :: k in KeptPiece(p) ==> Trimmed(k)
  {
  }

  /** No keyword holds a comma. */
  lemma KeywordsCommaFree(inputText: string)
    ensures forall k :: k in ParseKeywords(inputText) ==> Separator !in k
  {
    SplitPieces(inputText);
    StrippedNonBlankCommaFree(Split(inputText));
  }

  lemma {:induction false} StrippedNonBlankCommaFree(pieces: seq<string>)
    requires forall p :: p in pieces ==> Separator !in p
    ensures forall k :: k in StrippedNonBlank(pieces) ==> Separator !in k
  {
    if pieces != [] {
      StrippedNonBlankCommaFree(pieces[1..]);
      StripChars(pieces[0]);
    }
  }

  /** `[p.strip() for p in pieces if p.strip()]` */
  function StrippedNonBlank(pieces: seq<string>): seq<string> {
    if pieces == [] then []
    else KeptPiece(pieces[0]) + StrippedNonBlank(pieces[1..])
  }

  /** What one piece contributes to the keyword list: its stripped self,
      unless that is empty. */
  function KeptPiece(piece: string): seq<string> {
    var k := Strip(piece);
    if k != [] then [k] else []
  }

  lemma StrippedNonBlankCons(p: string, rest: seq<string>)
    ensures StrippedNonBlank([p] + rest) == KeptPiece(p) + StrippedNonBlank(rest)
  {
    var ps := [p] + rest;
    assert ps[0] == p && ps[1..] == rest;
  }

  lemma {:induction false} StrippedNonBlankAppend(a: seq<string>, b: seq<string>)
    ensures StrippedNonBlank(a + b) == StrippedNonBlank(a) + StrippedNonBlank(b)
  {
    if a == [] {
      assert a + b == b;
    } else {
      var p, t := a[0], a[1..];
      assert a == [p] + t;
      assert a + b == [p] + (t + b);
      StrippedNonBlankCons(p, t + b);
      StrippedNonBlankCons(p, t);
      StrippedNonBlankAppend(t, b);
      ConcatAssoc(KeptPiece(p), StrippedNonBlank(t), StrippedNonBlank(b));
    }
  }

  /** Concatenation is associative; stated over any element type so that
      proofs using it do not look inside the elements. */
  lemma ConcatAssoc<T>(x: seq<T>, y: seq<T>, z: seq<T>)
    ensures x + (y + z) == (x + y) + z
  {
  }

  /** Order follows the comma-separated pieces: the keywords of two texts
      joined by a comma are the keywords of the first, then those of the
      second. */
  lemma ParseKeywordsAppend(a: string, b: string)
    ensures ParseKeywords(a + [Separator] + b) == ParseKeywords(a) + ParseKeywords(b)
  {
    SplitAppend(a, b);
    StrippedNonBlankAppend(Split(a), Split(b));
  }

  /** A comma-free text gives its stripped self, or nothing if it is blank.
      With ParseKeywordsAppend this determines ParseKeywords on every text. */
  lemma ParseKeywordsPiece(s: string)
    requires Separator !in s
    ensures ParseKeywords(s) == if AllSpace(s) then [] else [Strip(s)]
  {
    SplitNoSeparator(s);
    StripSlice(s);
    assert [s][1..] == [];
    assert ParseKeywords(s) == KeptPiece(s) + StrippedNonBlank([]);
  }

  /** Every character of `s` is a comma or whitespace. */
  predicate AllBlank(s: string) {
    forall i :: 0 <= i < |s| ==> s[i] == Separator || IsSpace(s[i])
  }

  /** No keyword is left exactly when the text holds nothing but commas and
      whitespace; that is when the "at least one input string" error shows. */
  lemma ParseKeywordsEmpty(inputText: string)
    ensures ParseKeywords(inputText) == [] <==> AllBlank(inputText)
  {
    StrippedNonBlankEmpty(Split(inputText));
    AllBlankPieces(inputText);
  }

  lemma {:induction false} StrippedNonBlankEmpty(pieces: seq<string>)
    ensures StrippedNonBlank(pieces) == [] <==> forall p :: p in pieces ==> AllSpace(p)
  {
    if pieces != [] {
      StrippedNonBlankEmpty(pieces[1..]);
      StripSlice(pieces[0]);
      assert pieces == [pieces[0]] + pieces[1..];
    }
  }

  /** A text is blank exactly when each of its pieces is all whitespace. */
  lemma {:induction false} AllBlankPieces(t: string)
    ensures AllBlank(t) <==> forall p :: p in Split(t) ==> AllSpace(p)
  {
    if t != [] {
      var c, u := t[0], t[1..];
      assert t == [c] + u;
      AllBlankPieces(u);
      var rest := Split(u);
      assert AllBlank(t) <==> (c == Separator || IsSpace(c)) && AllBlank(u) by {
        if (c == Separator || IsSpace(c)) && AllBlank(u) {
          assert forall i :: 1 <= i < |t| ==> t[i] == u[i - 1];
        }
        if AllBlank(t) {
          assert forall i :: 0 <= i < |u| ==> u[i] == t[i + 1];
        }
      }
      if c == Separator {
        assert Split(t) == [[]] + rest;
      } else {
        var p := Split(t);
        assert p == [[c] + rest[0]] + rest[1..];
        assert rest == [rest[0]] + rest[1..];
        ConsAllSpace(c, rest[0]);
      }
    }
  }

  lemma ConsAllSpace(c: char, s: string)
    ensures AllSpace([c] + s) <==> IsSpace(c) && AllSpace(s)
  {
    var cs := [c] + s;
    assert cs[0] == c;
    if IsSpace(c) && AllSpace(s) {
      assert forall i :: 1 <= i < |cs| ==> cs[i] == s[i - 1];
    }
    if AllSpace(cs) {
      assert forall i :: 0 <= i < |s| ==> s[i] == cs[i + 1];
    }
  }

  /** A text with no whitespace at either end is unchanged by Strip. */
  lemma StripTrimmed(s: string)
    requires Trimmed(s)
    ensures Strip(s) == s
  {
  }

  /** The text "cats, dogs" gives the keywords "cats" and "dogs". */
  lemma ParseKeywordsExample()
    ensures ParseKeywords("cats, dogs") == ["cats", "dogs"]
  {
    ExampleSplit();
    ExampleStrip();
  }

  lemma ExampleSplit()
    ensures Split("cats, dogs") == ["cats", " dogs"]
  {
    ExampleSplitText();
    SplitAppend("cats", " dogs");
    SplitNoSeparator("cats");
    SplitNoSeparator(" dogs");
  }

  lemma ExampleSplitText()
    ensures "cats, dogs" == "cats" + [Separator] + " dogs"
    ensures Separator !in "cats" && Separator !in " dogs"
  {
  }

  lemma ExampleStrip()
    ensures StrippedNonBlank(["cats", " dogs"]) == ["cats", "dogs"]
  {
    ExampleStripDogs();
    ExampleStripCats();
    StrippedNonBlankTwo("cats", " dogs");
  }

  lemma ExampleStripCats()
    ensures Strip("cats") == "cats"
  {
    assert Trimmed("cats");
    StripTrimmed("cats");
  }

  lemma ExampleStripDogs()
    ensures Strip(" dogs") == "dogs"
  {
  }

  lemma StrippedNonBlankTwo(a: string, b: string)
    requires Strip(a) != [] && Strip(b) != []
    ensures StrippedNonBlank([a, b]) == [Strip(a), Strip(b)]
  {
    assert [a, b][1..] == [b];
    assert [b][1..] == [];
    assert StrippedNonBlank([b]) == KeptPiece(b) + StrippedNonBlank([]);
    assert StrippedNonBlank([a, b]) == KeptPiece(a) + StrippedNonBlank([b]);
  }

  /** An empty text, or one of only commas and whitespace, gives no keyword. */
  lemma ParseKeywordsBlankExample()
    ensures ParseKeywords("") == []
    ensures ParseKeywords(" , \t,") == []
  {
    ExampleEmptyText();
    ExampleSeparatorsOnly();
  }

  lemma ExampleEmptyText()
    ensures ParseKeywords("") == []
  {
  }

  lemma ExampleSeparatorsOnly()
    ensures ParseKeywords(" , \t,") == []
  {
    assert AllBlank(" , \t,") by {
      var s := " , \t,";
      assert s[0] == ' ' && s[1] == ',' && s[2] == ' ' && s[3] == '\t' && s[4] == ',';
    }
    ParseKeywordsEmpty(" , \t,");
  }
}
