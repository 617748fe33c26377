/**
 * The string primitives every parser routine uses: trim, splitAndTrim,
 * toLower and normalize. A `char` stands for one byte of the input and the
 * character classes are those of the C locale.
 */
module TokenUtils {
  import opened SeqFacts

  // ---------------------------------------------------------------------
  // Character classes
  // ---------------------------------------------------------------------

  /** The two characters `trim` strips: space and horizontal tab. */
  predicate IsBlank(c: char) {
    c == ' ' || c == '\t'
  }

  /** C `isspace`: space, \t, \n, \v, \f, \r. */
  predicate IsSpace(c: char) {
    c == ' ' || c == '\t' || c == '\n' || c == '\r' || c as int == 11 || c as int == 12
  }

  /** C `isdigit`. */
  predicate IsDigit(c: char) {
    '0' <= c <= '9'
  }

  predicate IsUpper(c: char) {
    'A' <= c <= 'Z'
  }

  /** C `tolower`: maps 'A'..'Z' to 'a'..'z', every other character to itself. */
  function LowerChar(c: char): (r: char)
    ensures !IsUpper(r)
    ensures IsUpper(c) ==> r as int == c as int + 32 && 'a' <= r <= 'z'
    ensures !IsUpper(c) ==> r == c
  {
    if IsUpper(c) then (c as int - 'A' as int + 'a' as int) as char else c
  }

  ghost predicate AllBlank(s: string) {
    forall k :: 0 <= k < |s| ==> IsBlank(s[k])
  }

  // ---------------------------------------------------------------------
  // trim
  // ---------------------------------------------------------------------

  /** `find_first_not_of(" \t")`, with |s| standing for npos. */
  function FirstNotBlank(s: string): (i: nat)
    ensures i <= |s|
    ensures forall k :: 0 <= k < i ==> IsBlank(s[k])
    ensures i < |s| ==> !IsBlank(s[i])
  {
    if s == [] || !IsBlank(s[0]) then 0 else 1 + FirstNotBlank(s[1..])
  }

  /** One past `find_last_not_of(" \t")`, with 0 standing for npos. */
  function EndNotBlank(s: string): (j: nat)
    ensures j <= |s|
    ensures forall k :: j <= k < |s| ==> IsBlank(s[k])
    ensures j > 0 ==> !IsBlank(s[j - 1])
  {
    if s == [] || !IsBlank(s[|s| - 1]) then |s| else EndNotBlank(s[..|s| - 1])
  }

  lemma {:induction false} NotBlankBounds(s: string)
    requires FirstNotBlank(s) < |s|
    ensures FirstNotBlank(s) < EndNotBlank(s)
  {
  }

  /** Removes leading and trailing spaces and tabs (Utils.h `trim`). */
  function Trim(s: string): (r: string)
    ensures |r| <= |s|
    ensures r == [] <==> AllBlank(s)
    ensures r != [] ==> !IsBlank(r[0]) && !IsBlank(r[|r| - 1])
  {
    var i := FirstNotBlank(s);
    if i == |s| then
      assert s[..i] == s;
      []
    else
      NotBlankBounds(s);
      var r := s[i..EndNotBlank(s)];
      assert !AllBlank(s) by { assert !IsBlank(s[i]); }
      r
  }

  /** The trimmed string is the middle of a three-way split of its input. */
  lemma TrimIsInfix(s: string) returns (i: nat, j: nat)
    ensures i <= j <= |s|
    ensures Trim(s) == s[i..j]
    ensures AllBlank(s[..i]) && AllBlank(s[j..])
  {
    i := FirstNotBlank(s);
    if i == |s| {
      j := |s|;
    } else {
      NotBlankBounds(s);
      j := EndNotBlank(s);
    }
  }

  lemma {:induction false} FirstNotBlankPadded(a: string, r: string)
    requires AllBlank(a)
    requires r != [] && !IsBlank(r[0])
    ensures FirstNotBlank(a + r) == |a|
  {
    if a != [] {
      assert (a + r)[1..] == a[1..] + r;
      FirstNotBlankPadded(a[1..], r);
    }
  }

  lemma {:induction false} EndNotBlankPadded(r: string, b: string)
    requires AllBlank(b)
    requires r != [] && !IsBlank(r[|r| - 1])
    ensures EndNotBlank(r + b) == |r|
  {
    if b != [] {
      assert (r + b)[..|r + b| - 1] == r + b[..|b| - 1];
      EndNotBlankPadded(r, b[..|b| - 1]);
    }
  }

  /**
   * Uniqueness: whatever blank padding surrounds a string whose ends are not
   * blank, trim returns exactly that string.
   */
  lemma TrimPadded(a: string, r: string, b: string)
    requires AllBlank(a) && AllBlank(b)
    requires r != [] ==> !IsBlank(r[0]) && !IsBlank(r[|r| - 1])
    ensures Trim(a + r + b) == r
  {
    var s := a + r + b;
    if r == [] {
      assert AllBlank(s) by {
        forall k | 0 <= k < |s| ensures IsBlank(s[k]) {
          if k < |a| { assert s[k] == a[k]; } else { assert s[k] == b[k - |a|]; }
        }
      }
    } else {
      FirstNotBlankPadded(a, r + b);
      assert a + (r + b) == s;
      EndNotBlankPadded(a + r, b);
      assert s[|a|..|a| + |r|] == r;
    }
  }

  lemma FirstNotBlankAppend(s: string, t: string)
    requires FirstNotBlank(s) < |s|
    ensures FirstNotBlank(s + t) == FirstNotBlank(s)
  {
    var x := s + t;
    var i, i' := FirstNotBlank(s), FirstNotBlank(x);
    assert x[i] == s[i];
  }

  lemma EndNotBlankAppend(s: string, t: string)
    requires EndNotBlank(s) > 0
    ensures EndNotBlank(s) <= EndNotBlank(s + t)
  {
    var x := s + t;
    var j, j' := EndNotBlank(s), EndNotBlank(x);
    assert x[j - 1] == s[j - 1];
  }

  /**
   * Trimming s + t, where s holds a non-blank character, gives the trim of s
   * followed by what lies between the ends of the non-blank parts of s and of s + t.
   */
  lemma TrimAppend(s: string, t: string)
    requires !AllBlank(s)
    ensures EndNotBlank(s) <= EndNotBlank(s + t)
    ensures Trim(s + t) == Trim(s) + (s + t)[EndNotBlank(s)..EndNotBlank(s + t)]
  {
    var x := s + t;
    var i, j := FirstNotBlank(s), EndNotBlank(s);
    FirstNotBlankAppend(s, t);
    EndNotBlankAppend(s, t);
    NotBlankBounds(s);
    NotBlankBounds(x);
    var j' := EndNotBlank(x);
    assert Trim(x) == x[i..j'];
    assert Trim(s) == s[i..j];
    SliceOfAppend(s, t, i, j);
    SliceSplit(x, i, j, j');
  }

  /** A string whose ends are not blank is its own trim. */
  lemma TrimUnpadded(r: string)
    requires r != [] ==> !IsBlank(r[0]) && !IsBlank(r[|r| - 1])
    ensures Trim(r) == r
  {
    TrimPadded([], r, []);
    assert [] + r + [] == r;
  }

  /** Trimming adds no character. */
  lemma TrimKeepsAbsent(s: string, c: char)
    requires c !in s
    ensures c !in Trim(s)
  {
    var i, j := TrimIsInfix(s);
    assert forall k :: 0 <= k < |Trim(s)| ==> Trim(s)[k] == s[i + k];
  }

  lemma TrimIdempotent(s: string)
    ensures Trim(Trim(s)) == Trim(s)
  {
    TrimUnpadded(Trim(s));
  }

  // ---------------------------------------------------------------------
  // splitAndTrim
  // ---------------------------------------------------------------------

  /** `find(c)`, with |s| standing for npos. */
  function IndexOf(s: string, c: char): (i: nat)
    ensures i <= |s|
    ensures i < |s| ==> s[i] == c
    ensures forall k :: 0 <= k < i ==> s[k] != c
  {
    if s == [] then 0 else if s[0] == c then 0 else 1 + IndexOf(s[1..], c)
  }

  /** The first occurrence of c is where IndexOf stops. */
  lemma IndexOfFirst(s: string, c: char, pos: nat)
    requires pos < |s| && s[pos] == c && c !in s[..pos]
    ensures IndexOf(s, c) == pos
  {
    assert forall k :: 0 <= k < pos ==> s[..pos][k] == s[k];
  }

  /**
   * The fields that repeated `std::getline(stream, field, d)` extracts: the
   * text between delimiters, where a stream that is exhausted right after a
   * delimiter yields no further (empty) field.
   */
  function Fields(s: string, d: char): (r: seq<string>)
    decreases |s|
  {
    if s == [] then []
    else
      var i := IndexOf(s, d);
      if i == |s| then [s] else [s[..i]] + Fields(s[i + 1..], d)
  }

  /** Independent reference: the plain split, always one more piece than delimiters. */
  function Pieces(s: string, d: char): (r: seq<string>)
    ensures |r| >= 1
    decreases |s|
  {
    var i := IndexOf(s, d);
    if i == |s| then [s] else [s[..i]] + Pieces(s[i + 1..], d)
  }

  function Join(parts: seq<string>, d: char): string
    requires |parts| >= 1
  {
    if |parts| == 1 then parts[0] else parts[0] + [d] + Join(parts[1..], d)
  }

  /** The plain split loses nothing and its pieces hold no delimiter. */
  lemma {:induction false} PiecesJoin(s: string, d: char)
    ensures Join(Pieces(s, d), d) == s
    ensures forall k :: 0 <= k < |Pieces(s, d)| ==> d !in Pieces(s, d)[k]
    decreases |s|
  {
    var i := IndexOf(s, d);
    if i < |s| {
      PiecesJoin(s[i + 1..], d);
      assert s == s[..i] + [d] + s[i + 1..];
      var p := Pieces(s, d);
      forall k | 0 <= k < |p| ensures d !in p[k] {
        if k > 0 { assert p[k] == Pieces(s[i + 1..], d)[k - 1]; }
      }
    }
  }

  /** A split with a final empty piece removed, if there is one. */
  function DropEmptyLast(ps: seq<string>): seq<string>
  {
    if ps != [] && ps[|ps| - 1] == [] then ps[..|ps| - 1] else ps
  }

  /** A first piece in front of a non-empty split does not change what is dropped. */
  lemma DropEmptyLastCons(x: string, ps: seq<string>)
    requires ps != []
    ensures DropEmptyLast([x] + ps) == [x] + DropEmptyLast(ps)
  {
    if ps[|ps| - 1] == [] {
      ConsDropLast(x, ps);
    }
  }

  /**
   * getline semantics against the plain split: the fields are the pieces,
   * but a final empty piece (an empty input, or one that ends with the
   * delimiter) yields no field.
   */
  lemma {:induction false} FieldsArePieces(s: string, d: char)
    ensures Fields(s, d) == DropEmptyLast(Pieces(s, d))
    decreases |s|
  {
    if s != [] && IndexOf(s, d) < |s| {
      var t := s[IndexOf(s, d) + 1..];
      FieldsArePieces(t, d);
      FieldsCut(s, d);
      PiecesCut(s, d);
      DropEmptyLastCons(s[..IndexOf(s, d)], Pieces(t, d));
    } else {
      FieldsArePiecesWhole(s, d);
    }
  }

  /** Without a delimiter, the only piece is the input, a field unless it is empty. */
  lemma FieldsArePiecesWhole(s: string, d: char)
    requires s == [] || IndexOf(s, d) == |s|
    ensures Fields(s, d) == DropEmptyLast(Pieces(s, d))
  {
  }

  /** An interior empty field survives: "a" d d "b" splits as "a", "", "b". */
  lemma EmptyInteriorField(a: string, b: string, d: char)
    requires a != [] && d !in a && b != [] && d !in b
    ensures Fields(a + [d, d] + b, d) == [a, [], b]
  {
    var s := a + [d, d] + b;
    var t := [d] + b;
    IndexOfConcat(a, [d] + t, d);
    assert a + ([d] + t) == s;
    FieldsCut(s, d);
    assert s[..|a|] == a && s[|a| + 1..] == t;
    FieldsCut(t, d);
    assert t[..0] == [] && t[1..] == b;
    FieldsWhole(b, d);
  }

  /** A delimiter in s ends the first field there; the rest is split on its own. */
  lemma FieldsCut(s: string, d: char)
    requires IndexOf(s, d) < |s|
    ensures Fields(s, d) == [s[..IndexOf(s, d)]] + Fields(s[IndexOf(s, d) + 1..], d)
  {
  }

  /** A delimiter in s ends the first piece there; the rest is split on its own. */
  lemma PiecesCut(s: string, d: char)
    requires IndexOf(s, d) < |s|
    ensures Pieces(s, d) == [s[..IndexOf(s, d)]] + Pieces(s[IndexOf(s, d) + 1..], d)
  {
  }

  /** A non-empty string without the delimiter is a single field. */
  lemma FieldsWhole(s: string, d: char)
    requires s != [] && d !in s
    ensures Fields(s, d) == [s]
  {
    assert IndexOf(s, d) == |s|;
  }

  lemma {:induction false} IndexOfConcat(a: string, b: string, c: char)
    requires c !in a
    ensures IndexOf(a + b, c) == |a| + IndexOf(b, c)
  {
    if a != [] {
      assert (a + b)[0] == a[0];
      assert (a + b)[1..] == a[1..] + b;
      IndexOfConcat(a[1..], b, c);
    } else {
      assert a + b == b;
    }
  }

  /** A trailing delimiter after the last field adds no empty field. */
  lemma {:induction false} TrailingDelimiter(s: string, d: char)
    requires s != [] && s[|s| - 1] != d
    ensures Fields(s + [d], d) == Fields(s, d)
    decreases |s|
  {
    var i := IndexOf(s, d);
    if i == |s| {
      IndexOfConcat(s, [d], d);
      assert (s + [d])[..i] == s;
      assert (s + [d])[i + 1..] == [];
    } else {
      IndexOfPrefix(s, [d], d);
      assert (s + [d])[..i] == s[..i];
      assert (s + [d])[i + 1..] == s[i + 1..] + [d];
      TrailingDelimiter(s[i + 1..], d);
    }
  }

  lemma {:induction false} IndexOfPrefix(a: string, b: string, c: char)
    requires IndexOf(a, c) < |a|
    ensures IndexOf(a + b, c) == IndexOf(a, c)
  {
    if a[0] != c {
      assert (a + b)[1..] == a[1..] + b;
      IndexOfPrefix(a[1..], b, c);
    }
  }

  /** A field never holds the delimiter. */
  lemma {:induction false} FieldsHaveNoDelimiter(s: string, d: char)
    ensures forall k :: 0 <= k < |Fields(s, d)| ==> d !in Fields(s, d)[k]
    decreases |s|
  {
    if s != [] {
      var i := IndexOf(s, d);
      if i < |s| {
        FieldsHaveNoDelimiter(s[i + 1..], d);
        var f := Fields(s, d);
        forall k | 0 <= k < |f| ensures d !in f[k] {
          if k > 0 { assert f[k] == Fields(s[i + 1..], d)[k - 1]; }
        }
      }
    }
  }

  /** Utils.h `splitAndTrim`: the getline fields, each trimmed. */
  function SplitAndTrim(s: string, d: char): (r: seq<string>)
    ensures |r| == |Fields(s, d)|
  {
    TrimEach(Fields(s, d))
  }

  /** Every string of a list, trimmed. */
  function TrimEach(parts: seq<string>): (r: seq<string>)
    ensures |r| == |parts|
  {
    if parts == [] then [] else [Trim(parts[0])] + TrimEach(parts[1..])
  }

  lemma {:induction false} TrimEachElements(parts: seq<string>)
    ensures forall k :: 0 <= k < |parts| ==> TrimEach(parts)[k] == Trim(parts[k])
  {
    if parts != [] {
      TrimEachElements(parts[1..]);
    }
  }

  /** Every token is already trimmed and holds no delimiter. */
  lemma SplitAndTrimTokens(s: string, d: char)
    ensures forall k :: 0 <= k < |SplitAndTrim(s, d)| ==>
      Trim(SplitAndTrim(s, d)[k]) == SplitAndTrim(s, d)[k] && d !in SplitAndTrim(s, d)[k]
  {
    var f := Fields(s, d);
    var r := SplitAndTrim(s, d);
    TrimEachElements(f);
    FieldsHaveNoDelimiter(s, d);
    forall k | 0 <= k < |r| ensures Trim(r[k]) == r[k] && d !in r[k] {
      TrimIdempotent(f[k]);
      var i, j := TrimIsInfix(f[k]);
      assert r[k] == f[k][i..j];
    }
  }

  lemma SplitAndTrimEmpty(d: char)
    ensures SplitAndTrim([], d) == []
  {
  }

  // ---------------------------------------------------------------------
  // toLower and normalize
  // ---------------------------------------------------------------------

  /** Utils.h `toLower`: `tolower` applied to every character in place. */
  function ToLower(s: string): (r: string)
    ensures |r| == |s|
    ensures forall k :: 0 <= k < |s| ==> r[k] == LowerChar(s[k])
    ensures forall k :: 0 <= k < |s| ==> !IsUpper(r[k]) && (IsUpper(s[k]) || r[k] == s[k])
  {
    seq(|s|, k requires 0 <= k < |s| => LowerChar(s[k]))
  }

  lemma ToLowerIdempotent(s: string)
    ensures ToLower(ToLower(s)) == ToLower(s)
  {
  }

  /** Erase-remove of every `isspace` character. */
  function RemoveSpaces(s: string): (r: string)
    ensures forall k :: 0 <= k < |r| ==> !IsSpace(r[k])
    ensures forall c :: c in r ==> c in s
  {
    if s == [] then []
    else if IsSpace(s[0]) then RemoveSpaces(s[1..])
    else [s[0]] + RemoveSpaces(s[1..])
  }

  /** Utils.h `normalize`: lower-case, then drop all whitespace. */
  function Normalize(s: string): (r: string)
    ensures forall k :: 0 <= k < |r| ==> !IsSpace(r[k]) && !IsUpper(r[k])
  {
    var l := ToLower(s);
    var r := RemoveSpaces(l);
    assert forall c :: c in l ==> !IsUpper(c);
    r
  }

  lemma {:induction false} RemoveSpacesNoop(s: string)
    requires forall k :: 0 <= k < |s| ==> !IsSpace(s[k])
    ensures RemoveSpaces(s) == s
  {
    if s != [] {
      RemoveSpacesNoop(s[1..]);
    }
  }

  lemma NormalizeIdempotent(s: string)
    ensures Normalize(Normalize(s)) == Normalize(s)
  {
    var n := Normalize(s);
    assert ToLower(n) == n;
    RemoveSpacesNoop(n);
  }

  lemma NormalizeIgnoresCase(s: string)
    ensures Normalize(ToLower(s)) == Normalize(s)
  {
    ToLowerIdempotent(s);
  }

  /** The characters the erase-remove in `normalize` keeps. */
  predicate NotSpace(c: char) {
    !IsSpace(c)
  }

  /** Lower-casing works character by character, so it distributes over concatenation. */
  lemma ToLowerAppend(a: string, b: string)
    ensures ToLower(a + b) == ToLower(a) + ToLower(b)
  {
  }

  /** Removing spaces from a concatenation removes them from each part. */
  lemma {:induction false} RemoveSpacesAppend(a: string, b: string)
    ensures RemoveSpaces(a + b) == RemoveSpaces(a) + RemoveSpaces(b)
    decreases |a|
  {
    if a == [] {
      assert a + b == b;
    } else {
      assert (a + b)[0] == a[0] && (a + b)[1..] == a[1..] + b;
      RemoveSpacesAppend(a[1..], b);
    }
  }

  /** Space removal keeps exactly the non-space characters, in their original order. */
  lemma {:induction false} RemoveSpacesIsFilter(s: string)
    ensures RemoveSpaces(s) == Filter(s, NotSpace)
    decreases |s|
  {
    if s != [] {
      var front, last := s[..|s| - 1], s[|s| - 1];
      RemoveSpacesIsFilter(front);
      assert s == front + [last];
      RemoveSpacesAppend(front, [last]);
      assert RemoveSpaces([last]) == if IsSpace(last) then [] else [last] by {
        assert [last][1..] == [];
      }
    }
  }

  /** Normalising a concatenation normalises each part. */
  lemma NormalizeAppend(a: string, b: string)
    ensures Normalize(a + b) == Normalize(a) + Normalize(b)
  {
    ToLowerAppend(a, b);
    RemoveSpacesAppend(ToLower(a), ToLower(b));
  }

  /** A single character normalises to nothing when it is whitespace and to its lower case otherwise. */
  lemma NormalizeChar(c: char)
    ensures Normalize([c]) == if IsSpace(c) then [] else [LowerChar(c)]
  {
    var l := ToLower([c]);
    assert l == [LowerChar(c)];
    assert l[1..] == [];
    assert IsSpace(LowerChar(c)) == IsSpace(c);
    assert RemoveSpaces(l) == if IsSpace(c) then [] else [LowerChar(c)];
  }

  /** Normalising keeps the lower-cased non-space characters in order. */
  lemma NormalizeIsFilter(s: string)
    ensures Normalize(s) == Filter(ToLower(s), NotSpace)
  {
    RemoveSpacesIsFilter(ToLower(s));
  }

  /** Lower-casing maps every upper-case letter to its small letter, so the text "TRUE" reads as "true". */
  lemma ToLowerTrue()
    ensures ToLower("TRUE") == "true"
  {
  }
}
