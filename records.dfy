/** The value types both record classes declare (`Caption` and
    `Coordinates` named tuples) and the caption text both composers write. */
module Records {
  import opened Wrappers
  import Text

  datatype Caption = Caption(en: string, zh: string)

  datatype Coordinates<F> = Coordinates(lat: F, long: F)

  /** `f"{en}, {zh}."`. */
  function Format(c: Caption): (r: string)
    ensures |r| == |c.en| + |c.zh| + 3
    ensures r[..|c.en|] == c.en && r[|c.en| + 2..|r| - 1] == c.zh
    ensures r[|c.en|] == ',' && r[|c.en| + 1] == ' ' && r[|r| - 1] == '.'
  {
    c.en + ", " + c.zh + "."
  }

  /** Reads a caption back: the English part runs up to the first comma. */
  function Split(text: string): Option<Caption> {
    match Text.IndexOf(text, ',')
    case None => None
    case Some(i) =>
      if i + 2 <= |text| - 1 && text[i + 1] == ' ' && text[|text| - 1] == '.' then
        Some(Caption(text[..i], text[i + 2..|text| - 1]))
      else None
  }

  /** The caption text determines the caption, as long as the English
      part holds no comma. */
  lemma SplitFormat(c: Caption)
    requires ',' !in c.en
    ensures Split(Format(c)) == Some(c)
  {
    var text := Format(c);
    assert text == c.en + [','] + (" " + c.zh + ".");
    Text.FirstSeparator(c.en, ',', " " + c.zh + ".");
    assert text[..|c.en|] == c.en;
    assert text[|c.en| + 2..|text| - 1] == c.zh;
  }

  /** Without that condition the text is ambiguous: two captions can be
      published as the same words. */
  lemma FormatAmbiguous()
    ensures Format(Caption("Wan Chai, HK", "灣仔")) == Format(Caption("Wan Chai", "HK, 灣仔"))
  {
  }
}
