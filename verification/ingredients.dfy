/** The ingredient list of a chat turn: the comma-split parser applied to
    the typed or recognised text, and the `", "`-joined line that puts the
    list into the model prompt. */
module Ingredients {
  import opened JsString

  /** What the parser can produce: non-empty, trimmed, comma-free. */
  predicate IsIngredient(s: string) {
    s != "" && IsTrimmed(s) && ',' !in s
  }

  /** `.map(i => i.trim())` */
  function TrimEach(parts: seq<string>): seq<string> {
    seq(|parts|, i requires 0 <= i < |parts| => Trim(parts[i]))
  }

  /** `.filter(Boolean)` on strings: drop the empty ones, keep the order. */
  function DropEmpty(xs: seq<string>): (r: seq<string>)
    ensures |r| <= |xs|
    ensures forall i :: 0 <= i < |r| ==> r[i] != "" && r[i] in xs
    ensures forall x :: x in xs && x != "" ==> x in r
    ensures (forall i :: 0 <= i < |xs| ==> xs[i] != "") ==> r == xs
  {
    if xs == [] then []
    else if xs[0] == "" then DropEmpty(xs[1..])
    else [xs[0]] + DropEmpty(xs[1..])
  }

  /** The parser in `handleSend`: `text.split(",").map(trim).filter(Boolean)`. */
  function Parse(text: string): (items: seq<string>)
    ensures forall i :: 0 <= i < |items| ==> IsIngredient(items[i])
    ensures |items| <= Occurrences(text, ',') + 1
    ensures forall x :: x in items ==> exists seg :: seg in Split(text, ',') && Trim(seg) == x
    ensures forall seg :: seg in Split(text, ',') && !IsBlank(seg) ==> Trim(seg) in items
  {
    var segs := Split(text, ',');
    var trimmed := TrimEach(segs);
    var items := DropEmpty(trimmed);
    forall i | 0 <= i < |items| ensures IsIngredient(items[i]) {
      var j :| 0 <= j < |trimmed| && trimmed[j] == items[i];
      assert ',' !in segs[j];
    }
    forall x | x in items ensures exists seg :: seg in segs && Trim(seg) == x {
      var j :| 0 <= j < |trimmed| && trimmed[j] == x;
      assert segs[j] in segs;
    }
    forall seg | seg in segs && !IsBlank(seg) ensures Trim(seg) in items {
      var j :| 0 <= j < |segs| && segs[j] == seg;
      assert trimmed[j] == Trim(seg);
    }
    items
  }

  lemma TrimEachConcat(a: seq<string>, b: seq<string>)
    ensures TrimEach(a + b) == TrimEach(a) + TrimEach(b)
  {
  }

  /** `filter(Boolean)` keeps order and repeats: filtering a concatenation
      is the concatenation of the filtered halves. */
  lemma {:induction false} DropEmptyConcat(a: seq<string>, b: seq<string>)
    ensures DropEmpty(a + b) == DropEmpty(a) + DropEmpty(b)
    decreases |a|
  {
    if a != [] {
      assert (a + b)[0] == a[0];
      assert (a + b)[1..] == a[1..] + b;
      DropEmptyConcat(a[1..], b);
    } else {
      assert a + b == b;
    }
  }

  /** A comma splits the ingredient list in two: the items of the text
      before it, in order, then the items of the text after it. */
  lemma ParseConcat(x: string, y: string)
    ensures Parse(x + [','] + y) == Parse(x) + Parse(y)
  {
    SplitAtSeparator(x, y, ',');
    TrimEachConcat(Split(x, ','), Split(y, ','));
    DropEmptyConcat(TrimEach(Split(x, ',')), TrimEach(Split(y, ',')));
  }

  /** Text without a comma is one segment: no item when it is blank,
      otherwise the segment trimmed. */
  lemma ParseSegment(x: string)
    requires ',' !in x
    ensures Parse(x) == if IsBlank(x) then [] else [Trim(x)]
  {
    SplitFreePrefix(x, "", ',');
    assert x + "" == x;
    assert Split(x, ',') == [x];
    assert TrimEach([x]) == [Trim(x)];
  }

  /** Order and repeats survive parsing: two ingredients separated by a
      comma parse to both of them, in the order written, equal or not. */
  lemma ParseKeepsOrder(x: string, y: string)
    requires IsIngredient(x) && IsIngredient(y)
    ensures Parse(x + [','] + y) == [x, y]
  {
    ParseConcat(x, y);
    ParseSegment(x);
    ParseSegment(y);
  }

  /** The ingredients line of the model prompt: `ingredients.join(", ")`. */
  function PromptLine(items: seq<string>): string {
    Join(items, ", ")
  }

  /** The `", "`-joined line splits on its commas into the first item and
      every later item behind one space. */
  lemma {:induction false} SplitPromptLine(items: seq<string>)
    requires items != []
    requires forall i :: 0 <= i < |items| ==> IsIngredient(items[i])
    ensures Split(PromptLine(items), ',')
            == [items[0]] + seq(|items| - 1, i requires 0 <= i < |items| - 1 => " " + items[i + 1])
    decreases |items|
  {
    var spaced := seq(|items| - 1, i requires 0 <= i < |items| - 1 => " " + items[i + 1]);
    if |items| == 1 {
      SplitFreePrefix(items[0], "", ',');
      assert items[0] + "" == items[0];
    } else {
      var rest := items[1..];
      var tail := PromptLine(rest);
      SplitPromptLine(rest);
      var restSpaced := seq(|rest| - 1, i requires 0 <= i < |rest| - 1 => " " + rest[i + 1]);
      assert Split(tail, ',') == [rest[0]] + restSpaced;
      assert PromptLine(items) == items[0] + ([','] + (" " + tail));
      SplitFreePrefix(items[0], [','] + (" " + tail), ',');
      assert ([','] + (" " + tail))[1..] == " " + tail;
      SplitFreePrefix(" ", tail, ',');
      assert Split(" " + tail, ',') == [" " + rest[0]] + restSpaced;
      assert Split([','] + (" " + tail), ',') == [""] + Split(" " + tail, ',');
      assert items[0] + "" == items[0];
      assert spaced == [" " + rest[0]] + restSpaced;
    }
  }

  /** Parsing the prompt line of a list of ingredients gives the list back. */
  lemma PromptLineRoundTrip(items: seq<string>)
    requires forall i :: 0 <= i < |items| ==> IsIngredient(items[i])
    ensures Parse(PromptLine(items)) == items
  {
    if items == [] {
      assert Split("", ',') == [""];
      assert TrimEach([""]) == [""];
    } else {
      SplitPromptLine(items);
      var segs := Split(PromptLine(items), ',');
      forall i | 1 <= i < |items| ensures Trim(segs[i]) == items[i] {
        TrimAfterSpace(items[i]);
      }
      assert TrimEach(segs) == items;
    }
  }

  /** Parsing is stable under a round through the prompt: re-parsing the
      line built from a parse gives the same list. */
  lemma ParseStable(text: string)
    ensures Parse(PromptLine(Parse(text))) == Parse(text)
  {
    PromptLineRoundTrip(Parse(text));
  }

  /** Empty segments and padding are dropped: `"a, b ,, c"` parses to
      `["a", "b", "c"]`. */
  lemma ParseExample()
    ensures Parse("a, b ,, c") == ["a", "b", "c"]
  {
    var segs := ["a", " b ", "", " c"];
    ExampleSegments();
    ExampleTrims();
    assert TrimEach(segs) == ["a", "b", "", "c"];
    assert DropEmpty(["a", "b", "", "c"]) == ["a", "b", "c"];
  }

  lemma ExampleSegments()
    ensures Split("a, b ,, c", ',') == ["a", " b ", "", " c"]
  {
    var segs := ["a", " b ", "", " c"];
    assert Join(segs, [',']) == "a, b ,, c";
    SplitJoin(segs, ',');
  }

  lemma ExampleTrims()
    ensures Trim("a") == "a" && Trim(" b ") == "b" && Trim("") == "" && Trim(" c") == "c"
  {
    TrimAroundHead(" ", "b", " ");
    assert " " + "b" + " " == " b ";
    assert TrimEnd(" ") == "";
    TrimAfterSpace("c");
  }
}
