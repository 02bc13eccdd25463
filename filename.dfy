/** The name of the XML file written, computed from cell I2 of the sheet. */
module OutputName {
  import opened Strings
  import opened Cells

  const DefaultName: string := "converted_testcases.xml"

  /** The I2 value, or the default name when the cell is empty; then
      transliterated to ASCII and with spaces turned into underscores. The
      transliteration (`unidecode`) is a foreign library and is a parameter. */
  function Stem(i2: Option<string>, transliterate: string -> string): (r: string)
    ensures ' ' !in r
    ensures var t := transliterate(OrElse(i2, DefaultName));
            |r| == |t| && forall i :: 0 <= i < |t| ==> r[i] == if t[i] == ' ' then '_' else t[i]
  {
    ReplaceChar(transliterate(OrElse(i2, DefaultName)), ' ', '_')
  }

  /** The output file name: the stem, with ".xml" added when it does not already
      end with it. */
  function OutputFilename(i2: Option<string>, transliterate: string -> string): (r: string)
    ensures EndsWith(r, ".xml")
    ensures ' ' !in r
    ensures var stem := Stem(i2, transliterate);
            |stem| <= |r| && r[..|stem|] == stem
    ensures r == Stem(i2, transliterate) <==> EndsWith(Stem(i2, transliterate), ".xml")
    ensures !EndsWith(Stem(i2, transliterate), ".xml") ==> r == Stem(i2, transliterate) + ".xml"
  {
    var stem := Stem(i2, transliterate);
    if EndsWith(stem, ".xml") then stem
    else
      var r := stem + ".xml";
      assert r[|r| - 4..] == ".xml";
      r
  }

  /** A text without `a` is left as it is by replacing `a`. */
  lemma ReplaceAbsent(s: string, a: char, b: char)
    requires a !in s
    ensures ReplaceChar(s, a, b) == s
  {
  }

  lemma DefaultNameShape()
    ensures ' ' !in DefaultName && EndsWith(DefaultName, ".xml")
  {
  }

  /** An empty I2 cell gives "converted_testcases.xml", provided transliteration
      leaves that ASCII name alone. */
  lemma DefaultFilename(i2: Option<string>, transliterate: string -> string)
    requires !Truthy(i2)
    requires transliterate(DefaultName) == DefaultName
    ensures OutputFilename(i2, transliterate) == DefaultName
  {
    DefaultNameShape();
    ReplaceAbsent(DefaultName, ' ', '_');
  }
}
