/** The string operations the pages apply to user input: JavaScript's `trim`,
    `split(',')`, `includes`, and case mapping restricted to ASCII letters. */
module Text {
  import opened Common

  /** The characters `String.prototype.trim` strips: the ECMAScript
      WhiteSpace and LineTerminator code points. */
  predicate IsWhitespace(c: char)
  {
    || c == '\t' || c == '\n' || c == '\U{000B}' || c == '\U{000C}' || c == '\r' || c == ' '
    || c == '\U{00A0}' || c == '\U{1680}' || ('\U{2000}' <= c <= '\U{200A}')
    || c == '\U{2028}' || c == '\U{2029}' || c == '\U{202F}' || c == '\U{205F}'
    || c == '\U{3000}' || c == '\U{FEFF}'
  }

  predicate IsBlank(s: string)
  {
    forall i :: 0 <= i < |s| ==> IsWhitespace(s[i])
  }

  /** How many whitespace characters open `s`. */
  function LeadingWhitespace(s: string): (k: nat)
    ensures k <= |s|
    ensures forall i :: 0 <= i < k ==> IsWhitespace(s[i])
    ensures k < |s| ==> !IsWhitespace(s[k])
    decreases |s|
  {
    if |s| == 0 || !IsWhitespace(s[0]) then 0 else 1 + LeadingWhitespace(s[1..])
  }

  /** Where the run of whitespace that closes `s` begins. */
  function TrailingWhitespaceStart(s: string): (k: nat)
    ensures k <= |s|
    ensures forall i :: k <= i < |s| ==> IsWhitespace(s[i])
    ensures k > 0 ==> !IsWhitespace(s[k - 1])
    decreases |s|
  {
    if |s| == 0 || !IsWhitespace(s[|s| - 1]) then |s| else TrailingWhitespaceStart(s[..|s| - 1])
  }

  /** Where the trimmed part of `s` begins. */
  function TrimStart(s: string): (a: nat)
    ensures a <= |s|
    ensures forall i :: 0 <= i < a ==> IsWhitespace(s[i])
    ensures a < |s| ==> !IsWhitespace(s[a])
  {
    LeadingWhitespace(s)
  }

  /** Where the trimmed part of `s` ends. */
  function TrimEnd(s: string): (b: nat)
    ensures TrimStart(s) <= b <= |s|
    ensures forall i :: b <= i < |s| ==> IsWhitespace(s[i])
    ensures b > TrimStart(s) ==> !IsWhitespace(s[b - 1])
    ensures b == TrimStart(s) ==> TrimStart(s) == |s|
  {
    var a := TrimStart(s);
    var t := s[a..];
    var k := TrailingWhitespaceStart(t);
    assert forall i :: a + k <= i < |s| ==> s[i] == t[i - a];
    assert a < |s| ==> k > 0 by {
      if a < |s| && k == 0 {
        assert t[0] == s[a];
      }
    }
    a + k
  }

  /** `s.trim()`: the middle of `s` with whitespace removed at both ends. */
  function Trim(s: string): (r: string)
    ensures r == s[TrimStart(s)..TrimEnd(s)]
    ensures |r| == 0 <==> IsBlank(s)
    ensures |r| > 0 ==> !IsWhitespace(r[0]) && !IsWhitespace(r[|r| - 1])
  {
    s[TrimStart(s)..TrimEnd(s)]
  }

  /** Trimming twice is trimming once. */
  lemma TrimIsIdempotent(s: string)
    ensures Trim(Trim(s)) == Trim(s)
  {
    var r := Trim(s);
    if |r| > 0 {
      assert TrimStart(r) == 0;
      assert r[0..] == r;
      assert TrimEnd(r) == |r|;
    }
  }

  /** Every character of the trimmed string comes from the input. */
  lemma TrimKeepsCharacters(s: string, c: char)
    requires c in Trim(s)
    ensures c in s
  {
    var r := Trim(s);
    var a := TrimStart(s);
    var i :| 0 <= i < |r| && r[i] == c;
    assert s[a + i] == c;
  }

  predicate IsComma(c: char)
  {
    c == ','
  }

  /** The position of the first comma. */
  function FirstComma(s: string): (k: nat)
    requires ',' in s
    ensures k < |s| && s[k] == ',' && ',' !in s[..k]
    decreases |s|
  {
    if s[0] == ',' then 0
    else
      assert ',' in s[1..] by {
        var j :| 0 <= j < |s| && s[j] == ',';
        assert s[1..][j - 1] == ',';
      }
      var k := 1 + FirstComma(s[1..]);
      assert s[..k] == [s[0]] + s[1..][..k - 1];
      k
  }

  /** A comma with none before it is the first comma. */
  lemma FirstCommaIsUnique(s: string, k: nat)
    requires k < |s| && s[k] == ',' && ',' !in s[..k]
    ensures FirstComma(s) == k
  {
  }

  /** `s.split(',')`: the pieces between commas; an input without commas is
      one piece, and the empty string is one empty piece. */
  function SplitOnCommas(s: string): (r: seq<string>)
    ensures |r| == CountOf(s, IsComma) + 1
    ensures forall i :: 0 <= i < |r| ==> ',' !in r[i]
    decreases |s|
  {
    if ',' !in s then
      assert CountOf(s, IsComma) == 0;
      [s]
    else
      var k := FirstComma(s);
      assert s == s[..k] + [s[k]] + s[k + 1..];
      CountOfAppend(s[..k] + [s[k]], s[k + 1..], IsComma);
      CountOfAppend(s[..k], [s[k]], IsComma);
      assert CountOf(s[..k], IsComma) == 0;
      [s[..k]] + SplitOnCommas(s[k + 1..])
  }

  /** `parts.join(',')`. */
  function JoinWithCommas(parts: seq<string>): string
    requires |parts| >= 1
    decreases |parts|
  {
    if |parts| == 1 then parts[0] else parts[0] + "," + JoinWithCommas(parts[1..])
  }

  /** Joining the pieces restores the input. */
  lemma {:induction false} JoinAfterSplit(s: string)
    ensures JoinWithCommas(SplitOnCommas(s)) == s
    decreases |s|
  {
    if ',' in s {
      var k := FirstComma(s);
      var rest := SplitOnCommas(s[k + 1..]);
      SplitAtFirstComma(s, k);
      JoinAfterSplit(s[k + 1..]);
      JoinCons(s[..k], rest);
      RejoinAtComma(s, k);
    }
  }

  /** Text cut at a comma is the part before, the comma, and the part after. */
  lemma RejoinAtComma(s: string, k: nat)
    requires k < |s| && s[k] == ','
    ensures s[..k] + "," + s[k + 1..] == s
  {
    assert s == s[..k] + [s[k]] + s[k + 1..];
  }

  /** Joining a piece in front of at least one other puts a comma between. */
  lemma JoinCons(a: string, parts: seq<string>)
    requires |parts| >= 1
    ensures JoinWithCommas([a] + parts) == a + "," + JoinWithCommas(parts)
  {
    assert ([a] + parts)[1..] == parts;
  }

  /** Splitting comma-free pieces joined by commas gives them back. */
  lemma {:induction false} SplitAfterJoin(parts: seq<string>)
    requires |parts| >= 1
    requires forall i :: 0 <= i < |parts| ==> ',' !in parts[i]
    ensures SplitOnCommas(JoinWithCommas(parts)) == parts
    decreases |parts|
  {
    if |parts| == 1 {
      assert ',' !in JoinWithCommas(parts);
    } else {
      var tail := parts[1..];
      assert forall i :: 0 <= i < |tail| ==> ',' !in tail[i] by {
        forall i | 0 <= i < |tail| ensures ',' !in tail[i] {
          assert tail[i] == parts[i + 1];
        }
      }
      SplitAfterJoin(tail);
      JoinedSplitStep(parts);
      assert parts == [parts[0]] + tail;
    }
  }

  /** The first of several joined pieces splits off at its comma. */
  lemma JoinedSplitStep(parts: seq<string>)
    requires |parts| > 1 && ',' !in parts[0]
    ensures SplitOnCommas(JoinWithCommas(parts)) == [parts[0]] + SplitOnCommas(JoinWithCommas(parts[1..]))
  {
    assert JoinWithCommas(parts) == parts[0] + "," + JoinWithCommas(parts[1..]);
    SplitAfterCommaFree(parts[0], JoinWithCommas(parts[1..]));
  }

  /** The first piece ends at the first comma. */
  lemma SplitAtFirstComma(s: string, k: nat)
    requires k < |s| && s[k] == ',' && ',' !in s[..k]
    ensures SplitOnCommas(s) == [s[..k]] + SplitOnCommas(s[k + 1..])
  {
    FirstCommaIsUnique(s, k);
  }

  /** A comma after comma-free text ends the first piece. */
  lemma SplitAfterCommaFree(a: string, b: string)
    requires ',' !in a
    ensures SplitOnCommas(a + "," + b) == [a] + SplitOnCommas(b)
  {
    var s := a + "," + b;
    assert s[..|a|] == a;
    assert s[|a| + 1..] == b;
    SplitAtFirstComma(s, |a|);
  }

  /** A comma separates the pieces of its two sides. */
  lemma {:induction false} SplitAtComma(a: string, b: string)
    ensures SplitOnCommas(a + "," + b) == SplitOnCommas(a) + SplitOnCommas(b)
    decreases |a|
  {
    if ',' in a {
      var j := FirstComma(a);
      SplitAtComma(a[j + 1..], b);
      SplitAtCommaStep(a, b, j);
    } else {
      SplitAfterCommaFree(a, b);
    }
  }

  /** The step of `SplitAtComma`: if the text after the left side's first
      comma splits at the middle comma, so does the whole left side. */
  lemma SplitAtCommaStep(a: string, b: string, j: nat)
    requires j < |a| && a[j] == ',' && ',' !in a[..j]
    requires SplitOnCommas(a[j + 1..] + "," + b) == SplitOnCommas(a[j + 1..]) + SplitOnCommas(b)
    ensures SplitOnCommas(a + "," + b) == SplitOnCommas(a) + SplitOnCommas(b)
  {
    FirstCommaOfLeft(a, b, j);
    SplitAtFirstComma(a, j);
    Regroup(SplitOnCommas(a + "," + b), SplitOnCommas(a), a[..j],
            SplitOnCommas(a[j + 1..] + "," + b), SplitOnCommas(a[j + 1..]), SplitOnCommas(b));
  }

  /** A head followed by two parts is the head with the first part, then the second. */
  lemma Regroup<T>(whole: seq<T>, front: seq<T>, x: T, rest: seq<T>, left: seq<T>, right: seq<T>)
    requires whole == [x] + rest && rest == left + right && front == [x] + left
    ensures whole == front + right
  {
    assert [x] + (left + right) == ([x] + left) + right;
  }

  /** The first comma of the left side is the first comma of the whole. */
  lemma FirstCommaOfLeft(a: string, b: string, j: nat)
    requires j < |a| && a[j] == ',' && ',' !in a[..j]
    ensures SplitOnCommas(a + "," + b) == [a[..j]] + SplitOnCommas(a[j + 1..] + "," + b)
  {
    var s := a + "," + b;
    assert s[..j] == a[..j];
    assert s[j + 1..] == a[j + 1..] + "," + b;
    SplitAtFirstComma(s, j);
  }

  /** ASCII upper-case letters to lower case; every other character is kept. */
  function LowerChar(c: char): char
  {
    if 'A' <= c <= 'Z' then (c as int + 32) as char else c
  }

  /** ASCII lower-case letters to upper case; every other character is kept. */
  function UpperChar(c: char): char
  {
    if 'a' <= c <= 'z' then (c as int - 32) as char else c
  }

  /** `s.toLowerCase()` on ASCII letters. */
  function ToLower(s: string): (r: string)
    ensures |r| == |s|
    ensures forall i :: 0 <= i < |r| ==> !('A' <= r[i] <= 'Z')
    ensures forall i :: 0 <= i < |s| ==> ('a' <= s[i] <= 'z' ==> r[i] == s[i])
    ensures forall i :: 0 <= i < |s| ==>
      if 'A' <= s[i] <= 'Z' then r[i] as int == s[i] as int + 32 else r[i] == s[i]
  {
    seq(|s|, i requires 0 <= i < |s| => LowerChar(s[i]))
  }

  /** `s.toUpperCase()` on ASCII letters. */
  function ToUpper(s: string): (r: string)
    ensures |r| == |s|
    ensures forall i :: 0 <= i < |r| ==> !('a' <= r[i] <= 'z')
    ensures forall i :: 0 <= i < |s| ==> ('A' <= s[i] <= 'Z' ==> r[i] == s[i])
    ensures forall i :: 0 <= i < |s| ==>
      if 'a' <= s[i] <= 'z' then r[i] as int == s[i] as int - 32 else r[i] == s[i]
  {
    seq(|s|, i requires 0 <= i < |s| => UpperChar(s[i]))
  }

  lemma ToUpperIsIdempotent(s: string)
    ensures ToUpper(ToUpper(s)) == ToUpper(s)
  {
  }

  /** Upper-casing a lower-cased string and lower-casing an upper-cased one
      only differ in the case of letters. */
  lemma CaseMappingsAgreeOnLetters(s: string)
    ensures ToLower(ToUpper(s)) == ToLower(s)
    ensures ToUpper(ToLower(s)) == ToUpper(s)
  {
  }

  /** `hay.includes(needle)`. */
  predicate Contains(hay: string, needle: string)
    decreases |hay|
  {
    needle <= hay || (|hay| > 0 && Contains(hay[1..], needle))
  }

  /** `needle` occurs in `hay` starting at position `i`. */
  predicate OccursAt(hay: string, needle: string, i: int)
  {
    0 <= i && i + |needle| <= |hay| && hay[i..i + |needle|] == needle
  }

  /** Where `includes` holds, the needle occurs at some position. */
  lemma {:induction false} ContainsWitness(hay: string, needle: string) returns (i: nat)
    requires Contains(hay, needle)
    ensures OccursAt(hay, needle, i)
    decreases |hay|
  {
    if needle <= hay {
      i := 0;
    } else {
      var j := ContainsWitness(hay[1..], needle);
      i := j + 1;
      assert hay[i..i + |needle|] == hay[1..][j..j + |needle|];
    }
  }

  /** An occurrence at any position makes `includes` hold. */
  lemma {:induction false} OccurrenceIsContained(hay: string, needle: string, i: int)
    requires OccursAt(hay, needle, i)
    ensures Contains(hay, needle)
    decreases i
  {
    if i == 0 {
      assert needle <= hay;
    } else {
      assert hay[1..][i - 1..i - 1 + |needle|] == hay[i..i + |needle|];
      OccurrenceIsContained(hay[1..], needle, i - 1);
    }
  }

  /** `includes` holds exactly when the needle occurs at some position. */
  lemma ContainsIffOccurs(hay: string, needle: string)
    ensures Contains(hay, needle) <==> exists i :: OccursAt(hay, needle, i)
  {
    if Contains(hay, needle) {
      var i := ContainsWitness(hay, needle);
    }
    if exists i :: OccursAt(hay, needle, i) {
      var i :| OccursAt(hay, needle, i);
      OccurrenceIsContained(hay, needle, i);
    }
  }

  /** Every string includes the empty string. */
  lemma ContainsEmpty(hay: string)
    ensures Contains(hay, "")
  {
  }
}
