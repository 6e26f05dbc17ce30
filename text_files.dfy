/**
 * Text-mode file reads as Python performs them on POSIX: the content comes
 * back with universal newline translation. Writes in text mode leave "\n"
 * as it is, so a file holds exactly the string written to it.
 */
module TextFiles {
  /**
   * `open(path, 'r').read()` in text mode: universal newlines turn "\r\n" and
   * a lone "\r" into "\n"; every other character is read as stored.
   */
  function ReadText(stored: string): (r: string)
    ensures '\r' !in r
    ensures |r| <= |stored|
    decreases |stored|
  {
    if stored == [] then []
    else if stored[0] == '\r' then
      "\n" + ReadText(if |stored| > 1 && stored[1] == '\n' then stored[2..] else stored[1..])
    else [stored[0]] + ReadText(stored[1..])
  }

  /** Text without carriage returns reads back exactly as it was written. */
  lemma {:induction false} ReadTextOfPlainText(s: string)
    requires '\r' !in s
    ensures ReadText(s) == s
    decreases |s|
  {
    if s != [] {
      ReadTextOfPlainText(s[1..]);
    }
  }

  /** Reading text that was already read changes nothing. */
  lemma ReadTextIdempotent(s: string)
    ensures ReadText(ReadText(s)) == ReadText(s)
  {
    ReadTextOfPlainText(ReadText(s));
  }

  /** A Windows line ending and an old Mac one both read as one newline. */
  lemma ReadTextExample()
    ensures ReadText("a\r\nb") == "a\nb"
    ensures ReadText("a\rb") == "a\nb"
  {
    assert "a\r\nb"[1..] == "\r\nb" && "\r\nb"[2..] == "b";
    assert "a\rb"[1..] == "\rb" && "\rb"[1..] == "b";
  }
}
