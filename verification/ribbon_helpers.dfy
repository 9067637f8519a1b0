/** `RibbonHelpers.SanitizeName`: the internal name of a ribbon item made from its label. */
module RibbonHelpers {
  import opened Wrappers
  import opened Seqs
  import opened Text

  /** `char` of `Guid.ToString("N")`: a lower-case hexadecimal digit. */
  predicate IsHexDigit(c: char) {
    '0' <= c <= '9' || 'a' <= c <= 'f'
  }

  /** A GUID in "N" format: 32 hexadecimal digits, no separators. */
  predicate IsGuidN(g: string) {
    |g| == 32 && forall i :: 0 <= i < |g| ==> IsHexDigit(g[i])
  }

  /** The letters and digits of a string, in order. */
  function LettersAndDigits(s: string): string {
    Filter(s, IsLetterOrDigit)
  }

  /** `SanitizeName(label)`: the letters and digits of the label (null read as empty), or the
      fresh identifier `guid` (`Guid.NewGuid().ToString("N")`) when there is none. */
  function SanitizeName(labelText: Option<string>, guid: string): string {
    var baseName := LettersAndDigits(labelText.GetOr(""));
    if baseName == "" then guid else baseName
  }

  /** Null reads as the empty string; a label with a letter or digit gives exactly its
      letters and digits, each one taken from the label; a label without any gives the
      identifier. */
  lemma SanitizeNameSpec(labelText: Option<string>, guid: string)
    ensures labelText.None? ==> SanitizeName(labelText, guid) == SanitizeName(Some(""), guid)
    ensures (forall i :: 0 <= i < |labelText.GetOr("")| ==> !IsLetterOrDigit(labelText.GetOr("")[i])) ==>
      SanitizeName(labelText, guid) == guid
    ensures (exists i :: 0 <= i < |labelText.GetOr("")| && IsLetterOrDigit(labelText.GetOr("")[i])) ==>
      var r := SanitizeName(labelText, guid);
      && r == LettersAndDigits(labelText.GetOr(""))
      && (forall i :: 0 <= i < |r| ==> IsLetterOrDigit(r[i]) && r[i] in labelText.GetOr(""))
      && (forall i :: 0 <= i < |labelText.GetOr("")| && IsLetterOrDigit(labelText.GetOr("")[i]) ==> labelText.GetOr("")[i] in r)
  {
    var s := labelText.GetOr("");
    FilterSpec(s, IsLetterOrDigit);
    if exists i :: 0 <= i < |s| && IsLetterOrDigit(s[i]) {
      var i :| 0 <= i < |s| && IsLetterOrDigit(s[i]);
      assert s[i] in LettersAndDigits(s);
    }
  }

  /** With a GUID as the fallback the name is never empty and holds only letters and
      digits. */
  lemma SanitizeNameIsIdentifier(labelText: Option<string>, guid: string)
    requires IsGuidN(guid)
    ensures SanitizeName(labelText, guid) != ""
    ensures forall i :: 0 <= i < |SanitizeName(labelText, guid)| ==> IsLetterOrDigit(SanitizeName(labelText, guid)[i])
  {
    FilterSpec(labelText.GetOr(""), IsLetterOrDigit);
  }

  /** A label made of letters and digits only is its own name. */
  lemma CleanLabelIsKept(labelText: string, guid: string)
    requires labelText != ""
    requires forall i :: 0 <= i < |labelText| ==> IsLetterOrDigit(labelText[i])
    ensures SanitizeName(Some(labelText), guid) == labelText
  {
    FilterAll(labelText, IsLetterOrDigit);
  }

  /** Sanitizing a sanitized name changes nothing, whatever the second identifier. */
  lemma SanitizeNameIdempotent(labelText: Option<string>, guid: string, guid2: string)
    requires IsGuidN(guid)
    ensures SanitizeName(Some(SanitizeName(labelText, guid)), guid2) == SanitizeName(labelText, guid)
  {
    SanitizeNameIsIdentifier(labelText, guid);
    CleanLabelIsKept(SanitizeName(labelText, guid), guid2);
  }
}
