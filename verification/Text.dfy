/** `String.prototype.split` with a one-character separator. */
module Text {
  function Split(text: string, separator: char): (parts: seq<string>)
    ensures parts != []
  {
    if text == "" then [""]
    else
      var rest := Split(text[1..], separator);
      if text[0] == separator then [""] + rest else [[text[0]] + rest[0]] + rest[1..]
  }

  lemma {:induction false} SplitPart(part: string, separator: char)
    requires separator !in part
    ensures Split(part, separator) == [part]
  {
    if part != "" {
      SplitPart(part[1..], separator);
      assert [part[0]] + part[1..] == part;
    }
  }

  lemma {:induction false} SplitExtended(front: string, part: string, separator: char)
    requires separator !in part
    ensures Split(front + [separator] + part, separator) == Split(front, separator) + [part]
  {
    var text := front + [separator] + part;
    if front == "" {
      assert text[1..] == part;
      SplitPart(part, separator);
    } else {
      assert text[0] == front[0] && text[1..] == front[1..] + [separator] + part;
      SplitExtended(front[1..], part, separator);
    }
  }
}
