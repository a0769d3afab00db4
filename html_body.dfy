/**
  The HTML part of the outgoing mail: the handler rewrites every newline of
  the message text to an HTML line break, `body.replace(/\n/g, '<br>')`.
*/
module HtmlBody {
  import opened Strings

  const LineBreak: string := "<br>"

  /** Every `'\n'` of `text` replaced by `<br>`, all other characters kept in order. */
  function NewlinesToBr(text: string): (html: string)
    ensures '\n' !in html
    ensures |html| == |text| + 3 * Occurrences(text, '\n')
    decreases |text|
  {
    if text == [] then []
    else (if text[0] == '\n' then LineBreak else [text[0]]) + NewlinesToBr(text[1..])
  }

  /** Text without a newline is sent as HTML unchanged. */
  lemma {:induction false} NewlinesToBrIdentity(text: string)
    requires '\n' !in text
    ensures NewlinesToBr(text) == text
    decreases |text|
  {
    if text != [] {
      assert text[0] != '\n';
      assert '\n' !in text[1..] by {
        forall i | 0 <= i < |text[1..]| ensures text[1..][i] != '\n' {
          assert text[1..][i] == text[i + 1];
        }
      }
      NewlinesToBrIdentity(text[1..]);
      assert text == [text[0]] + text[1..];
    }
  }

  /** The rewrite is global: it acts on each piece of a concatenation independently. */
  lemma {:induction false} NewlinesToBrAppend(a: string, b: string)
    ensures NewlinesToBr(a + b) == NewlinesToBr(a) + NewlinesToBr(b)
    decreases |a|
  {
    if a == [] {
      assert a + b == b;
    } else {
      assert (a + b)[0] == a[0];
      assert (a + b)[1..] == a[1..] + b;
      NewlinesToBrAppend(a[1..], b);
    }
  }

  /**
    The reverse rewrite, each `<br>` back to `'\n'`, reading left to right.
    It is not part of the handler; it states what the rewrite loses.
  */
  function BrToNewlines(html: string): (text: string)
    ensures |text| <= |html|
    decreases |html|
  {
    if |html| >= 4 && html[..4] == LineBreak then ['\n'] + BrToNewlines(html[4..])
    else if html == [] then []
    else [html[0]] + BrToNewlines(html[1..])
  }

  /**
    For text with no `<`, the HTML part determines the text: turning each
    `<br>` back into a newline recovers it.
  */
  lemma {:induction false} NewlinesToBrRoundTrip(text: string)
    requires '<' !in text
    ensures BrToNewlines(NewlinesToBr(text)) == text
    decreases |text|
  {
    if text != [] {
      var rest := NewlinesToBr(text[1..]);
      assert '<' !in text[1..] by {
        forall i | 0 <= i < |text[1..]| ensures text[1..][i] != '<' {
          assert text[1..][i] == text[i + 1];
        }
      }
      NewlinesToBrRoundTrip(text[1..]);
      if text[0] == '\n' {
        var html := LineBreak + rest;
        assert html[..4] == LineBreak;
        assert html[4..] == rest;
      } else {
        var html := [text[0]] + rest;
        assert html[0] == text[0] && html[0] != '<';
        assert html[1..] == rest;
      }
      assert text == [text[0]] + text[1..];
    }
  }

  /** A leading newline becomes a leading `<br>`. */
  lemma NewlinesToBrLeadingNewline(rest: string)
    ensures NewlinesToBr(['\n'] + rest) == LineBreak + NewlinesToBr(rest)
  {
    var text := ['\n'] + rest;
    assert text[0] == '\n' && text[1..] == rest;
  }

  /**
    Two lines joined by one newline become the same two lines joined by one
    `<br>`; "Line1\nLine2" becomes "Line1<br>Line2".
  */
  lemma NewlinesToBrTwoLines(first: string, second: string)
    requires '\n' !in first && '\n' !in second
    ensures NewlinesToBr(first + ['\n'] + second) == first + LineBreak + second
  {
    calc {
      NewlinesToBr(first + ['\n'] + second);
      { assert first + ['\n'] + second == first + (['\n'] + second); }
      NewlinesToBr(first + (['\n'] + second));
      { NewlinesToBrAppend(first, ['\n'] + second); }
      NewlinesToBr(first) + NewlinesToBr(['\n'] + second);
      { NewlinesToBrIdentity(first); NewlinesToBrLeadingNewline(second); NewlinesToBrIdentity(second); }
      first + (LineBreak + second);
      first + LineBreak + second;
    }
  }

  /** The example of the handler's documentation: "Line1\nLine2" becomes "Line1<br>Line2". */
  lemma NewlinesToBrExample(text: string, html: string)
    requires text == "Line1\nLine2" && html == "Line1<br>Line2"
    ensures NewlinesToBr(text) == html
  {
    var first, second := "Line1", "Line2";
    assert text == first + ['\n'] + second;
    assert html == first + LineBreak + second;
    NewlinesToBrTwoLines(first, second);
  }
}
