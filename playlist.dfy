/**
  The playlist resolver: a tag's stored text with trailing whitespace removed
  (Python's `str.rstrip()`), or, for a tag without text, its identifier written
  as upper-case hexadecimal (Python's `"%X" % id`).
 */
module Playlist {
  import opened Wrappers

  /** Python's `str.isspace()` on one character: Unicode category Zs, or
      bidirectional class WS, B or S. */
  predicate IsSpace(c: char) {
    || ('\t' <= c <= '\r')
    || ('\U{1C}' <= c <= '\U{1F}')
    || c == ' '
    || c == '\U{85}'
    || c == '\U{A0}'
    || c == '\U{1680}'
    || ('\U{2000}' <= c <= '\U{200A}')
    || c == '\U{2028}'
    || c == '\U{2029}'
    || c == '\U{202F}'
    || c == '\U{205F}'
    || c == '\U{3000}'
  }

  /** `s.rstrip()`: the longest prefix of `s` that does not end in whitespace,
      all of whose removed characters are whitespace. */
  function RStrip(s: string): (r: string)
    ensures |r| <= |s| && r == s[..|r|]
    ensures r == [] || !IsSpace(r[|r| - 1])
    ensures forall i :: |r| <= i < |s| ==> IsSpace(s[i])
  {
    if s != [] && IsSpace(s[|s| - 1]) then RStrip(s[..|s| - 1]) else s
  }

  /** The three properties in RStrip's contract determine its result. */
  lemma RStripUnique(s: string, p: string)
    requires |p| <= |s| && p == s[..|p|]
    requires p == [] || !IsSpace(p[|p| - 1])
    requires forall i :: |p| <= i < |s| ==> IsSpace(s[i])
    ensures p == RStrip(s)
  {
  }

  /** Stripping twice is stripping once. */
  lemma RStripIdempotent(s: string)
    ensures RStrip(RStrip(s)) == RStrip(s)
  {
    var r := RStrip(s);
    RStripUnique(r, r);
  }

  /** Text made of whitespace only strips to the empty string. */
  lemma RStripAllSpace(s: string)
    requires forall i :: 0 <= i < |s| ==> IsSpace(s[i])
    ensures RStrip(s) == []
  {
    RStripUnique(s, []);
  }

  /** Stripping keeps everything up to and including the last non-whitespace character. */
  lemma RStripKeepsContent(s: string, k: nat)
    requires k < |s| && !IsSpace(s[k])
    ensures k < |RStrip(s)| && RStrip(s)[..k + 1] == s[..k + 1]
  {
  }

  predicate IsHexDigit(c: char) {
    ('0' <= c <= '9') || ('A' <= c <= 'F')
  }

  /** The digit `%X` writes for `d`. */
  function HexDigit(d: nat): (c: char)
    requires d < 16
    ensures IsHexDigit(c)
  {
    if d < 10 then ('0' as int + d) as char else ('A' as int + d - 10) as char
  }

  /** The value of an upper-case hexadecimal digit. */
  function HexValue(c: char): (d: nat)
    requires IsHexDigit(c)
    ensures d < 16 && HexDigit(d) == c
  {
    if c <= '9' then c as int - '0' as int else c as int - 'A' as int + 10
  }

  /** A string `%X` can produce: non-empty, upper-case hex digits only, and no
      leading zero unless the string is "0" itself. */
  predicate IsCanonicalHex(s: string) {
    && s != []
    && (forall i :: 0 <= i < |s| ==> IsHexDigit(s[i]))
    && (s[0] == '0' ==> s == "0")
  }

  /** Reads a string of hexadecimal digits, most significant first. */
  function ParseHex(s: string): nat
    requires forall i :: 0 <= i < |s| ==> IsHexDigit(s[i])
  {
    if s == [] then 0 else ParseHex(s[..|s| - 1]) * 16 + HexValue(s[|s| - 1])
  }

  /** `"%X" % n` for a non-negative `n`. */
  function Hex(n: nat): (s: string)
    ensures IsCanonicalHex(s)
    ensures s[0] == '0' <==> n == 0
  {
    if n < 16 then [HexDigit(n)] else Hex(n / 16) + [HexDigit(n % 16)]
  }

  /** Parsing the hexadecimal rendering gives the identifier back. */
  lemma {:induction false} HexRoundTrip(n: nat)
    ensures ParseHex(Hex(n)) == n
  {
    var s := Hex(n);
    if n < 16 {
      assert s[..|s| - 1] == [];
    } else {
      assert s[..|s| - 1] == Hex(n / 16);
      HexRoundTrip(n / 16);
    }
  }

  /** A canonical hexadecimal string whose first digit is not zero denotes a positive number. */
  lemma {:induction false} ParseHexPositive(s: string)
    requires IsCanonicalHex(s) && s[0] != '0'
    ensures ParseHex(s) > 0
  {
    if |s| > 1 {
      var init := s[..|s| - 1];
      assert init[0] == s[0];
      ParseHexPositive(init);
    }
  }

  /** Every canonical hexadecimal string is the rendering of the number it
      denotes, so the rendering is the only canonical spelling of a number. */
  lemma {:induction false} HexUnique(s: string)
    requires IsCanonicalHex(s)
    ensures Hex(ParseHex(s)) == s
  {
    var n := ParseHex(s);
    var last := s[|s| - 1];
    var init := s[..|s| - 1];
    if |s| == 1 {
      assert init == [];
      assert ParseHex(init) == 0;
      assert n == HexValue(last);
      assert s == [last];
    } else {
      assert init[0] == s[0];
      assert s[0] != '0';
      ParseHexPositive(init);
      var m := ParseHex(init);
      assert n == m * 16 + HexValue(last);
      assert n / 16 == m && n % 16 == HexValue(last);
      HexUnique(init);
      assert s == init + [last];
    }
  }

  /** `playlist_name(id, text)`: for truthy text, the text minus its trailing
      whitespace with nothing else removed; otherwise the canonical
      hexadecimal spelling of the identifier, which parses back to it. */
  function PlaylistName(id: nat, text: Option<string>): (name: string)
    ensures text.Some? && text.value != "" ==>
      && |name| <= |text.value| && name == text.value[..|name|]
      && (name == [] || !IsSpace(name[|name| - 1]))
      && (forall i :: |name| <= i < |text.value| ==> IsSpace(text.value[i]))
    ensures text == None || text == Some("") ==> IsCanonicalHex(name) && ParseHex(name) == id
  {
    if text.Some? && text.value != "" then RStrip(text.value)
    else HexRoundTrip(id); Hex(id)
  }

  /** Text made only of whitespace passes the truthiness test and then strips to "". */
  lemma PlaylistNameOfBlankText(id: nat, text: string)
    requires text != ""
    requires forall i :: 0 <= i < |text| ==> IsSpace(text[i])
    ensures PlaylistName(id, Some(text)) == ""
  {
    RStripAllSpace(text);
  }

  /** Two example readings: trailing blanks and a newline go, and 0xA1B2 becomes "A1B2". */
  lemma PlaylistNameExamples()
    ensures PlaylistName(0, Some("Jazz Night \n")) == "Jazz Night"
    ensures PlaylistName(0xA1B2, None) == "A1B2"
    ensures PlaylistName(0xA1B2, Some("")) == "A1B2"
  {
    assert IsCanonicalHex("A1B2");
    HexUnique("A1B2");
    assert ParseHex("A1B2") == 0xA1B2 by {
      assert "A1B2"[..3] == "A1B";
      assert "A1B"[..2] == "A1";
      assert "A1"[..1] == "A";
      assert "A"[..0] == "";
    }
    var t := "Jazz Night \n";
    RStripUnique(t, "Jazz Night");
  }
}
