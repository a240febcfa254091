/** String helpers of the client: the display name of an icon type, the short
    form of an address shown in the header and on notes, and the
    case-insensitive comparison of addresses. */
module Format {

  /** Names of the icon types, indexed by the ledger's enum value. */
  const IconTypes: seq<string> := ["HappyBirthday", "Congratulations", "MerryChristmas", "Graduation"]

  /** Name used for an enum value that IconTypes does not cover. */
  const UnknownType: string := "Unknown"

  /** The characters of the regular-expression class [A-Z]. */
  predicate IsUpper(c: char) {
    'A' <= c <= 'Z'
  }

  function CountUpper(s: string): nat {
    if s == [] then 0 else (if IsUpper(s[0]) then 1 else 0) + CountUpper(s[1..])
  }

  // ---------------------------------------------------------------------------
  // Display names: name.replace(/([A-Z])/g, ' $1').trim()
  // ---------------------------------------------------------------------------

  /** The replacement step: a space in front of every capital letter. */
  function SpaceCapitals(s: string): (r: string)
    ensures |r| == |s| + CountUpper(s)
    ensures r != [] ==> !IsUpper(r[0])
  {
    if s == [] then []
    else if IsUpper(s[0]) then [' ', s[0]] + SpaceCapitals(s[1..])
    else [s[0]] + SpaceCapitals(s[1..])
  }

  /** Undoes SpaceCapitals: drops one space in front of each capital letter. */
  function DropSpaceBeforeCapitals(r: string): string {
    if r == [] then []
    else if |r| >= 2 && r[0] == ' ' && IsUpper(r[1]) then [r[1]] + DropSpaceBeforeCapitals(r[2..])
    else [r[0]] + DropSpaceBeforeCapitals(r[1..])
  }

  /** Inserting the spaces loses nothing: the original name can be recovered. */
  lemma {:induction false} SpaceCapitalsInvertible(s: string)
    ensures DropSpaceBeforeCapitals(SpaceCapitals(s)) == s
  {
    if s != [] {
      var rest := SpaceCapitals(s[1..]);
      SpaceCapitalsInvertible(s[1..]);
      if IsUpper(s[0]) {
        assert SpaceCapitals(s)[2..] == rest;
      } else {
        assert SpaceCapitals(s)[1..] == rest;
      }
    }
  }

  /** The replacement distributes over concatenation (it works character by character). */
  lemma {:induction false} SpaceCapitalsAppend(a: string, b: string)
    ensures SpaceCapitals(a + b) == SpaceCapitals(a) + SpaceCapitals(b)
  {
    if a == [] {
      assert a + b == b;
    } else {
      assert (a + b)[0] == a[0];
      assert (a + b)[1..] == a[1..] + b;
      SpaceCapitalsAppend(a[1..], b);
    }
  }

  /** A word without capitals is left as it is. */
  lemma {:induction false} SpaceCapitalsLower(s: string)
    requires forall k :: 0 <= k < |s| ==> !IsUpper(s[k])
    ensures SpaceCapitals(s) == s
  {
    if s != [] {
      SpaceCapitalsLower(s[1..]);
    }
  }

  /** The last character survives the replacement unchanged. */
  lemma {:induction false} SpaceCapitalsLast(s: string)
    requires s != []
    ensures SpaceCapitals(s)[|SpaceCapitals(s)| - 1] == s[|s| - 1]
  {
    if |s| > 1 {
      SpaceCapitalsLast(s[1..]);
    }
  }

  /** Characters that String.prototype.trim removes: the ECMAScript WhiteSpace
      and LineTerminator code points. */
  predicate IsTrimmable(c: char) {
    var n := c as int;
    n == 0x09 || n == 0x0A || n == 0x0B || n == 0x0C || n == 0x0D || n == 0x20 ||
    n == 0xA0 || n == 0x1680 || (0x2000 <= n <= 0x200A) || n == 0x2028 || n == 0x2029 ||
    n == 0x202F || n == 0x205F || n == 0x3000 || n == 0xFEFF
  }

  /** Length of the trimmable prefix. */
  function LeadingSpace(s: string): (n: nat)
    ensures n <= |s|
    ensures forall k :: 0 <= k < n ==> IsTrimmable(s[k])
    ensures n < |s| ==> !IsTrimmable(s[n])
  {
    if s != [] && IsTrimmable(s[0]) then 1 + LeadingSpace(s[1..]) else 0
  }

  /** Length of the trimmable suffix. */
  function TrailingSpace(s: string): (n: nat)
    ensures n <= |s|
    ensures forall k :: |s| - n <= k < |s| ==> IsTrimmable(s[k])
    ensures n < |s| ==> !IsTrimmable(s[|s| - 1 - n])
  {
    if s != [] && IsTrimmable(s[|s| - 1]) then 1 + TrailingSpace(s[..|s| - 1]) else 0
  }

  /** String.prototype.trim: the result is the slice of `s` left after removing
      trimmable characters at both ends, and it neither starts nor ends with one. */
  function Trim(s: string): (r: string)
    ensures LeadingSpace(s) + |r| <= |s|
    ensures r == s[LeadingSpace(s)..LeadingSpace(s) + |r|]
    ensures forall k :: 0 <= k < |s| && !(LeadingSpace(s) <= k < LeadingSpace(s) + |r|) ==> IsTrimmable(s[k])
    ensures r != [] ==> !IsTrimmable(r[0]) && !IsTrimmable(r[|r| - 1])
  {
    var lead := LeadingSpace(s);
    if lead == |s| then [] else s[lead..|s| - TrailingSpace(s)]
  }

  /** The name of an icon type, or "Unknown" outside the table. */
  function IconTypeName(t: int): string {
    if 0 <= t < |IconTypes| then IconTypes[t] else UnknownType
  }

  /** The label shown for an icon of type `t`. */
  function DisplayName(t: int): string {
    Trim(SpaceCapitals(IconTypeName(t)))
  }

  /** Trimming a string with exactly one trimmable character in front and none
      at the end drops that character. */
  lemma TrimOneLeading(r: string)
    requires |r| >= 2 && IsTrimmable(r[0]) && !IsTrimmable(r[1]) && !IsTrimmable(r[|r| - 1])
    ensures Trim(r) == r[1..]
  {
    assert LeadingSpace(r[1..]) == 0;
    assert LeadingSpace(r) == 1;
    assert TrailingSpace(r) == 0;
  }

  /** For a name that starts with a capital and does not end in white space,
      trimming removes exactly the one space inserted in front. */
  lemma SpacedNameTrim(s: string)
    requires s != [] && IsUpper(s[0]) && !IsTrimmable(s[|s| - 1])
    ensures Trim(SpaceCapitals(s)) == SpaceCapitals(s)[1..]
  {
    var r := SpaceCapitals(s);
    assert r[0] == ' ' && r[1] == s[0];
    SpaceCapitalsLast(s);
    TrimOneLeading(r);
  }

  /** Every table name starts with a capital letter and ends in a letter. */
  lemma IconTypeNameShape(t: int)
    ensures var s := IconTypeName(t); s != [] && IsUpper(s[0]) && !IsTrimmable(s[|s| - 1])
  {
  }

  /** The display name determines the icon type name: putting the trimmed space
      back and removing the inserted spaces gives the name again. */
  lemma DisplayNameRecoversTypeName(t: int)
    ensures DropSpaceBeforeCapitals([' '] + DisplayName(t)) == IconTypeName(t)
  {
    var s := IconTypeName(t);
    IconTypeNameShape(t);
    SpacedNameTrim(s);
    assert [' '] + DisplayName(t) == SpaceCapitals(s);
    SpaceCapitalsInvertible(s);
  }

  /** A capital ASCII letter followed by lower-case ASCII letters. */
  predicate IsWord(w: string) {
    |w| > 0 && IsUpper(w[0]) && forall k :: 1 <= k < |w| ==> 'a' <= w[k] <= 'z'
  }

  /** A word gets one space in front, and its last letter is not white space. */
  lemma SpaceCapitalsWord(w: string)
    requires IsWord(w)
    ensures SpaceCapitals(w) == [' '] + w
    ensures !IsTrimmable(w[|w| - 1])
  {
    SpaceCapitalsLower(w[1..]);
    assert [' ', w[0]] + w[1..] == [' '] + w;
  }

  /** The label of a name made of two words. */
  lemma TwoWordLabel(name: string, first: string, second: string, shown: string)
    requires IsWord(first) && IsWord(second)
    requires name == first + second && shown == first + [' '] + second
    ensures Trim(SpaceCapitals(name)) == shown
  {
    SpaceCapitalsWord(first);
    SpaceCapitalsWord(second);
    SpaceCapitalsAppend(first, second);
    var r := SpaceCapitals(first + second);
    assert r == [' '] + first + [' '] + second;
    assert r[|r| - 1] == second[|second| - 1];
    assert r[1] == first[0];
    TrimOneLeading(r);
    assert r[1..] == first + [' '] + second;
  }

  /** The label of a name made of one word. */
  lemma OneWordLabel(w: string)
    requires IsWord(w)
    ensures Trim(SpaceCapitals(w)) == w
  {
    SpaceCapitalsWord(w);
    var r := SpaceCapitals(w);
    assert r[|r| - 1] == w[|w| - 1];
    assert r[1] == w[0];
    TrimOneLeading(r);
  }

  /** "HappyBirthday" is shown as "Happy Birthday". */
  lemma HappyBirthdayLabel()
    ensures DisplayName(0) == "Happy Birthday"
  {
    assert IconTypeName(0) == "HappyBirthday";
    assert IsWord("Happy") && IsWord("Birthday");
    TwoWordLabel("HappyBirthday", "Happy", "Birthday", "Happy Birthday");
  }

  /** "MerryChristmas" is shown as "Merry Christmas". */
  lemma MerryChristmasLabel()
    ensures DisplayName(2) == "Merry Christmas"
  {
    assert IconTypeName(2) == "MerryChristmas";
    assert IsWord("Merry") && IsWord("Christmas");
    TwoWordLabel("MerryChristmas", "Merry", "Christmas", "Merry Christmas");
  }

  /** "Congratulations" is shown as it is. */
  lemma CongratulationsLabel()
    ensures DisplayName(1) == "Congratulations"
  {
    assert IconTypeName(1) == "Congratulations";
    OneWordLabel("Congratulations");
  }

  /** "Graduation" is shown as it is. */
  lemma GraduationLabel()
    ensures DisplayName(3) == "Graduation"
  {
    assert IconTypeName(3) == "Graduation";
    OneWordLabel("Graduation");
  }

  /** An enum value outside the table is shown as "Unknown". */
  lemma UnknownLabel(t: int)
    requires t < 0 || t >= |IconTypes|
    ensures DisplayName(t) == "Unknown"
  {
    assert IconTypeName(t) == "Unknown";
    OneWordLabel("Unknown");
  }

  // ---------------------------------------------------------------------------
  // Short address: a.substring(0, 6) + "..." + a.substring(38)
  // ---------------------------------------------------------------------------

  /** An index argument of String.prototype.substring, clamped to [0, len]. */
  function ClampIndex(x: int, len: nat): (r: nat)
    ensures r <= len
    ensures 0 <= x <= len ==> r == x
  {
    if x < 0 then 0 else if x > len then len else x
  }

  /** String.prototype.substring(start, end): both indices clamped, and swapped
      when start is past end. */
  function Substring(s: string, start: int, end: int): string {
    var a, b := ClampIndex(start, |s|), ClampIndex(end, |s|);
    if a <= b then s[a..b] else s[b..a]
  }

  /** substring does not care about the order of its arguments, and a range
      inside the string gives exactly that slice. */
  lemma SubstringProperties(s: string, start: int, end: int)
    ensures Substring(s, start, end) == Substring(s, end, start)
    ensures 0 <= start <= end <= |s| ==> Substring(s, start, end) == s[start..end]
    ensures |Substring(s, start, end)| <= |s|
  {
  }

  function Min(a: int, b: int): int { if a <= b then a else b }
  function Max(a: int, b: int): int { if a <= b then b else a }

  /** The short form of an address. */
  function ShortAddress(a: string): string {
    Substring(a, 0, 6) + "..." + Substring(a, 38, |a|)
  }

  /** The short form keeps at most the first six and the characters from
      index 38 on, with "..." between them. */
  lemma ShortAddressShape(a: string)
    ensures var r, h, t := ShortAddress(a), Min(|a|, 6), Max(|a| - 38, 0);
      |r| == h + 3 + t && r[..h] == a[..h] && r[h..h + 3] == "..." && r[h + 3..] == a[|a| - t..]
  {
  }

  /** For a 42-character hex address: "0x" and four digits, "...", the last four digits. */
  lemma ShortAddressOfFullAddress(a: string)
    requires |a| == 42
    ensures ShortAddress(a) == a[..6] + "..." + a[38..]
    ensures |ShortAddress(a)| == 13
  {
  }

  // ---------------------------------------------------------------------------
  // Case-insensitive comparison: a.toLowerCase() === b.toLowerCase()
  // ---------------------------------------------------------------------------

  /** Lower case of an ASCII letter; every other character is left alone. */
  function LowerChar(c: char): char {
    if IsUpper(c) then (c as int + 32) as char else c
  }

  function ToLower(s: string): string {
    seq(|s|, k requires 0 <= k < |s| => LowerChar(s[k]))
  }

  predicate SameAddress(a: string, b: string) {
    ToLower(a) == ToLower(b)
  }

  /** Two addresses match exactly when they have the same length and agree
      letter by letter up to case. */
  lemma SameAddressPointwise(a: string, b: string)
    ensures SameAddress(a, b) <==> |a| == |b| && forall k :: 0 <= k < |a| ==> LowerChar(a[k]) == LowerChar(b[k])
  {
    if |a| == |b| && forall k :: 0 <= k < |a| ==> LowerChar(a[k]) == LowerChar(b[k]) {
      assert forall k :: 0 <= k < |a| ==> ToLower(a)[k] == ToLower(b)[k];
    }
    if SameAddress(a, b) {
      forall k | 0 <= k < |a| ensures LowerChar(a[k]) == LowerChar(b[k]) {
        assert ToLower(a)[k] == ToLower(b)[k];
      }
    }
  }

  /** Two characters have the same lower case exactly when they are equal or
      are the two cases of one ASCII letter. */
  lemma LowerCharMatches(c: char, d: char)
    ensures LowerChar(c) == LowerChar(d) <==>
      c == d || (IsUpper(c) && d as int == c as int + 32) || (IsUpper(d) && c as int == d as int + 32)
  {
  }

  /** The comparison is an equivalence: reflexive, symmetric and transitive. */
  lemma SameAddressEquivalence(a: string, b: string, c: string)
    ensures SameAddress(a, a)
    ensures SameAddress(a, b) ==> SameAddress(b, a)
    ensures SameAddress(a, b) && SameAddress(b, c) ==> SameAddress(a, c)
  {
  }
}
