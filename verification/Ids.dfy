/** Hostnames and ids: what the two ends agree on as text. */
module Charset {
  predicate IsAlphanumeric(c: char) {
    'a' <= c <= 'z' || 'A' <= c <= 'Z' || '0' <= c <= '9'
  }

  /** What the agent accepts as an instance id: safe as the stem of a journal file. */
  predicate ValidInstanceId(s: string) {
    && s != "" && s != "." && s != ".."
    && forall k :: 0 <= k < |s| ==> IsAlphanumeric(s[k]) || s[k] in {'.', '_', ':', '-'}
  }

  /** What the master accepts in a target hostname; `:` is the id separator. */
  predicate HostnameIdSafe(s: string) {
    s != "" && forall k :: 0 <= k < |s| ==> IsAlphanumeric(s[k]) || s[k] in {'.', '_', '-'}
  }

  // ----- The alphabets, letter by letter -----

  const UPPER := "ABCDEFGHIJKLMNOPQRSTUVWXYZ"
  const LOWER := "abcdefghijklmnopqrstuvwxyz"
  const DIGITS := "0123456789"
  const LETTERS := UPPER + LOWER

  predicate Over(s: string, alphabet: string) {
    forall k :: 0 <= k < |s| ==> s[k] in alphabet
  }

  lemma UpperIs(c: char)
    ensures 'A' <= c <= 'Z' <==> c in UPPER
  {
    assert 'A' <= c <= 'Z' ==> UPPER[c as int - 'A' as int] == c;
  }

  lemma LowerIs(c: char)
    ensures 'a' <= c <= 'z' <==> c in LOWER
  {
    assert 'a' <= c <= 'z' ==> LOWER[c as int - 'a' as int] == c;
  }

  lemma DigitsAre(c: char)
    ensures '0' <= c <= '9' <==> c in DIGITS
  {
    assert '0' <= c <= '9' ==> DIGITS[c as int - '0' as int] == c;
  }

  lemma AlphanumericIs(c: char)
    ensures IsAlphanumeric(c) <==> c in LETTERS || c in DIGITS
  {
    UpperIs(c);
    LowerIs(c);
    DigitsAre(c);
    hide UPPER, LOWER, DIGITS;
  }

  lemma AllAlphanumericAre()
    ensures forall c: char :: IsAlphanumeric(c) <==> c in LETTERS + DIGITS
  {
    forall c: char
      ensures IsAlphanumeric(c) <==> c in LETTERS + DIGITS
    {
      AlphanumericIs(c);
    }
  }

  /** Exactly these ids are refused: the empty one, the two directory names, and those with any other
      character, a path separator for one. */
  lemma RefusedIdIff(s: string)
    ensures !ValidInstanceId(s) <==> s == "" || s == "." || s == ".." || !Over(s, LETTERS + DIGITS + "._:-")
    ensures !HostnameIdSafe(s) <==> s == "" || !Over(s, LETTERS + DIGITS + "._-")
  {
    AllAlphanumericAre();
    assert forall c :: c in LETTERS + DIGITS + "._:-" <==> c in LETTERS + DIGITS || c in {'.', '_', ':', '-'};
    assert forall c :: c in LETTERS + DIGITS + "._-" <==> c in LETTERS + DIGITS || c in {'.', '_', '-'};
  }
}

/** Hostname parsing: the labels of section 2.1 of RFC 1123 with the size limits of section 2.3.4 of
    RFC 1035. */
module Hostnames {
  import opened Charset

  const MAX_HOSTNAME_LEN := 253
  const MAX_LABEL_LEN := 63

  datatype HostnameError = Empty | TooLong(length: nat) | InvalidLabel(part: string)

  datatype ParseResult = Parsed(name: string) | Refused(error: HostnameError)

  /** Unicode White_Space, which `trim` removes. */
  predicate IsWhitespace(c: char) {
    var n := c as int;
    || 0x09 <= n <= 0x0D || n == 0x20 || n == 0x85 || n == 0xA0 || n == 0x1680
    || 0x2000 <= n <= 0x200A || n == 0x2028 || n == 0x2029 || n == 0x202F || n == 0x205F || n == 0x3000
  }

  function TrimStart(s: string): string {
    if s != "" && IsWhitespace(s[0]) then TrimStart(s[1..]) else s
  }

  function TrimEnd(s: string): string {
    if s != "" && IsWhitespace(s[|s| - 1]) then TrimEnd(s[..|s| - 1]) else s
  }

  function Trim(s: string): string {
    TrimEnd(TrimStart(s))
  }

  predicate AllSpace(s: string) {
    forall k :: 0 <= k < |s| ==> IsWhitespace(s[k])
  }

  predicate Unspaced(s: string) {
    s == "" || (!IsWhitespace(s[0]) && !IsWhitespace(s[|s| - 1]))
  }

  lemma {:induction false} TrimStartIs(s: string) returns (j: nat)
    ensures j <= |s| && TrimStart(s) == s[j..] && AllSpace(s[..j]) && (j < |s| ==> !IsWhitespace(s[j]))
  {
    j := 0;
    if s != "" && IsWhitespace(s[0]) {
      var i := TrimStartIs(s[1..]);
      j := i + 1;
      assert forall k :: 0 < k < j ==> s[..j][k] == s[1..][..i][k - 1];
    }
  }

  lemma {:induction false} TrimEndIs(s: string) returns (k: nat)
    ensures k <= |s| && TrimEnd(s) == s[..k] && AllSpace(s[k..]) && (k > 0 ==> !IsWhitespace(s[k - 1]))
  {
    k := |s|;
    if s != "" && IsWhitespace(s[|s| - 1]) {
      k := TrimEndIs(s[..|s| - 1]);
      assert s[k..] == s[..|s| - 1][k..] + [s[|s| - 1]];
    }
  }

  /** Trimming cuts white space off both ends, all of it, and nothing else. */
  lemma TrimIs(s: string) returns (before: string, after: string)
    ensures s == before + Trim(s) + after && AllSpace(before) && AllSpace(after) && Unspaced(Trim(s))
  {
    var j := TrimStartIs(s);
    var k := TrimEndIs(s[j..]);
    before, after := s[..j], s[j..][k..];
  }

  /** The 25 code points with the property White_Space. */
  lemma WhitespaceIs(c: char)
    ensures IsWhitespace(c) <==>
            c in "\t\n\U{0B}\U{0C}\r \U{85}\U{A0}\U{1680}\U{2000}\U{2001}\U{2002}\U{2003}\U{2004}\U{2005}"
               + "\U{2006}\U{2007}\U{2008}\U{2009}\U{200A}\U{2028}\U{2029}\U{202F}\U{205F}\U{3000}"
  {
  }

  /** Lengths are measured in UTF-8 bytes. */
  function Bytes(s: string): nat {
    if s == "" then 0
    else
      var n := s[0] as int;
      (if n < 0x80 then 1 else if n < 0x800 then 2 else if n < 0x1_0000 then 3 else 4) + Bytes(s[1..])
  }

  /** The pieces between separators; never empty. */
  function Split(s: string, separator: char): (labels: seq<string>)
    ensures labels != []
  {
    if s == "" then [""]
    else
      var rest := Split(s[1..], separator);
      if s[0] == separator then [""] + rest else [[s[0]] + rest[0]] + rest[1..]
  }

  function Join(labels: seq<string>, separator: char): string {
    if labels == [] then ""
    else if |labels| == 1 then labels[0]
    else labels[0] + [separator] + Join(labels[1..], separator)
  }

  predicate ValidLabel(part: string) {
    && 1 <= Bytes(part) <= MAX_LABEL_LEN
    && part[0] != '-' && part[|part| - 1] != '-'
    && forall k :: 0 <= k < |part| ==> IsAlphanumeric(part[k]) || part[k] == '-'
  }

  /** The first label that is refused, if any. */
  function CheckLabels(labels: seq<string>, name: string): ParseResult {
    if labels == [] then Parsed(name)
    else if !ValidLabel(labels[0]) then Refused(InvalidLabel(labels[0]))
    else CheckLabels(labels[1..], name)
  }

  function Parse(s: string): ParseResult {
    var name := Trim(s);
    if name == "" then Refused(Empty)
    else if Bytes(name) > MAX_HOSTNAME_LEN then Refused(TooLong(Bytes(name)))
    else CheckLabels(Split(name, '.'), name)
  }

  // ----- What a parsed hostname is -----

  /** RFC 1123: dot-separated valid labels, at most 253 bytes. */
  ghost predicate IsHostname(name: string) {
    Bytes(name) <= MAX_HOSTNAME_LEN && exists labels :: IsLabelling(labels, name)
  }

  predicate IsLabelling(labels: seq<string>, name: string) {
    labels != [] && Join(labels, '.') == name && forall k :: 0 <= k < |labels| ==> ValidLabel(labels[k])
  }

  predicate Free(part: string, separator: char) {
    forall k :: 0 <= k < |part| ==> part[k] != separator
  }

  lemma {:induction false} JoinSplit(s: string, separator: char)
    ensures Join(Split(s, separator), separator) == s
  {
    if s != "" {
      JoinSplit(s[1..], separator);
      var rest := Split(s[1..], separator);
      if s[0] == separator {
        assert ([""] + rest)[1..] == rest;
        assert "" + [separator] + s[1..] == s;
      } else {
        var labels := [[s[0]] + rest[0]] + rest[1..];
        if |rest| == 1 {
          assert [s[0]] + s[1..] == s;
        } else {
          assert labels[1..] == rest[1..];
          assert Join(labels, separator) == [s[0]] + (rest[0] + [separator] + Join(rest[1..], separator));
          assert [s[0]] + s[1..] == s;
        }
      }
    }
  }

  lemma {:induction false} SplitLabel(part: string, separator: char)
    requires Free(part, separator)
    ensures Split(part, separator) == [part]
  {
    if part != "" {
      assert part[0] != separator;
      assert forall k :: 0 <= k < |part[1..]| ==> part[1..][k] == part[k + 1];
      SplitLabel(part[1..], separator);
      assert [part[0]] + part[1..] == part;
    }
  }

  lemma {:induction false} SplitFirst(part: string, rest: string, separator: char)
    requires Free(part, separator)
    ensures Split(part + [separator] + rest, separator) == [part] + Split(rest, separator)
  {
    var s := part + [separator] + rest;
    if part == "" {
      assert s[1..] == rest;
    } else {
      assert part[0] != separator;
      assert forall k :: 0 <= k < |part[1..]| ==> part[1..][k] == part[k + 1];
      SplitFirst(part[1..], rest, separator);
      assert s[1..] == part[1..] + [separator] + rest;
      assert [part[0]] + part[1..] == part;
      assert Split(s[1..], separator)[1..] == Split(rest, separator);
    }
  }

  lemma {:induction false} SplitJoin(labels: seq<string>, separator: char)
    requires labels != [] && forall k :: 0 <= k < |labels| ==> Free(labels[k], separator)
    ensures Split(Join(labels, separator), separator) == labels
  {
    assert Free(labels[0], separator);
    if |labels| == 1 {
      SplitLabel(labels[0], separator);
    } else {
      assert forall k :: 0 <= k < |labels[1..]| ==> labels[1..][k] == labels[k + 1];
      SplitJoin(labels[1..], separator);
      SplitFirst(labels[0], Join(labels[1..], separator), separator);
      assert [labels[0]] + labels[1..] == labels;
    }
  }

  lemma {:induction false} LabelsChecked(labels: seq<string>, name: string)
    ensures CheckLabels(labels, name).Parsed? <==> forall k :: 0 <= k < |labels| ==> ValidLabel(labels[k])
    ensures CheckLabels(labels, name).Parsed? ==> CheckLabels(labels, name).name == name
  {
    if labels != [] {
      LabelsChecked(labels[1..], name);
      assert forall k :: 0 < k < |labels| ==> labels[k] == labels[1..][k - 1];
    }
  }

  lemma ValidLabelIsFree(part: string)
    requires ValidLabel(part)
    ensures part != "" && Free(part, '.')
  {
  }

  lemma {:induction false} JoinCharset(labels: seq<string>)
    requires labels != [] && forall k :: 0 <= k < |labels| ==> ValidLabel(labels[k])
    ensures HostnameIdSafe(Join(labels, '.'))
    ensures Join(labels, '.')[0] != '.' && IsAlphanumeric(Join(labels, '.')[0])
    ensures IsAlphanumeric(Join(labels, '.')[|Join(labels, '.')| - 1])
  {
    ValidLabelIsFree(labels[0]);
    if |labels| > 1 {
      assert forall k :: 0 <= k < |labels[1..]| ==> labels[1..][k] == labels[k + 1];
      JoinCharset(labels[1..]);
    }
  }

  lemma TrimUnspaced(s: string)
    requires s == "" || (!IsWhitespace(s[0]) && !IsWhitespace(s[|s| - 1]))
    ensures Trim(s) == s
  {
  }

  /** Parsing accepts exactly the names that are RFC 1123 hostnames once trimmed, and keeps the name. */
  lemma ParseIsRfc1123(s: string)
    ensures Parse(s).Parsed? <==> IsHostname(Trim(s))
    ensures Parse(s).Parsed? ==> Parse(s).name == Trim(s)
  {
    var name := Trim(s);
    var labels := Split(name, '.');
    LabelsChecked(labels, name);
    JoinSplit(name, '.');
    if Parse(s).Parsed? {
      assert IsLabelling(labels, name);
    }
    if IsHostname(name) {
      var others :| IsLabelling(others, name);
      forall k | 0 <= k < |others|
        ensures Free(others[k], '.')
      {
        ValidLabelIsFree(others[k]);
      }
      SplitJoin(others, '.');
      JoinCharset(others);
    }
  }

  /** Every parsed hostname is safe inside an instance id, and parses to itself. */
  lemma ParsedIsIdSafe(s: string)
    requires Parse(s).Parsed?
    ensures HostnameIdSafe(Parse(s).name) && Free(Parse(s).name, ':')
    ensures Parse(Parse(s).name) == Parse(s)
  {
    var name := Trim(s);
    ParseIsRfc1123(s);
    var labels :| IsLabelling(labels, name);
    JoinCharset(labels);
    TrimUnspaced(name);
    ParseIsRfc1123(name);
  }

  /** An id-safe target has no whitespace, so parsing leaves it as it is. */
  lemma IdSafeParsesToItself(s: string)
    requires HostnameIdSafe(s) && Parse(s).Parsed?
    ensures Parse(s).name == s
  {
    TrimUnspaced(s);
    ParseIsRfc1123(s);
  }

  // ----- The limits in characters -----

  /** UTF-8: one to four bytes a character, by its code point; and a text is as long as its parts. */
  lemma {:induction false} Utf8Length(s: string, c: char, t: string)
    ensures Bytes(s + [c] + t) ==
            Bytes(s) + Bytes(t) + if c as int <= 0x7F then 1
                                  else if c as int <= 0x7FF then 2
                                  else if c as int <= 0xFFFF then 3
                                  else 4
  {
    if s == "" {
      assert (s + [c] + t)[1..] == t;
    } else {
      assert (s + [c] + t)[1..] == s[1..] + [c] + t;
      Utf8Length(s[1..], c, t);
    }
  }

  lemma {:induction false} AsciiBytes(s: string)
    requires forall k :: 0 <= k < |s| ==> s[k] as int < 0x80
    ensures Bytes(s) == |s|
  {
    if s != "" {
      AsciiBytes(s[1..]);
    }
  }

  /** Letters, digits and inner hyphens, 1 to 63 of them. */
  predicate IsLabel(part: string) {
    && 1 <= |part| <= 63 && Over(part, LETTERS + DIGITS + "-")
    && part[0] != '-' && part[|part| - 1] != '-'
  }

  lemma LabelIs(part: string)
    ensures ValidLabel(part) <==> IsLabel(part)
  {
    AllAlphanumericAre();
    assert forall c :: c in LETTERS + DIGITS + "-" <==> c in LETTERS + DIGITS || c == '-';
    if forall k :: 0 <= k < |part| ==> IsAlphanumeric(part[k]) || part[k] == '-' {
      AsciiBytes(part);
    }
  }

  predicate IsDotted(labels: seq<string>, name: string) {
    labels != [] && Join(labels, '.') == name && forall k :: 0 <= k < |labels| ==> IsLabel(labels[k])
  }

  /** RFC 1123 in numbers: what parses is, once trimmed, at most 253 characters, in labels of 1 to 63. */
  lemma ParseLimits(s: string)
    ensures Parse(s).Parsed? <==> |Trim(s)| <= 253 && exists labels :: IsDotted(labels, Trim(s))
  {
    var name := Trim(s);
    ParseIsRfc1123(s);
    forall labels
      ensures IsDotted(labels, name) <==> IsLabelling(labels, name)
      ensures IsLabelling(labels, name) ==> Bytes(name) == |name|
    {
      forall part
        ensures ValidLabel(part) <==> IsLabel(part)
      {
        LabelIs(part);
      }
      if IsLabelling(labels, name) {
        JoinCharset(labels);
        AsciiBytes(name);
      }
    }
  }
}
