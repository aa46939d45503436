/** `formatResponsibilities`: the responsibilities text is a list of
    items written between `-` signs, shown in the tooltip as `<li>` items. */
module Tooltip {
  import opened JsString

  /** `pieces.filter(item => item.trim())`: pieces that are not blank. */
  function NonBlank(pieces: seq<string>): (r: seq<string>)
    ensures |r| <= |pieces|
    decreases |pieces|
  {
    if |pieces| == 0 then []
    else (if Trim(pieces[0]) != "" then [pieces[0]] else []) + NonBlank(pieces[1..])
  }

  /** `.map(item => `<li>${item.trim()}</li>`).join('')`. */
  function ListItems(pieces: seq<string>): string
    decreases |pieces|
  {
    if |pieces| == 0 then "" else "<li>" + Trim(pieces[0]) + "</li>" + ListItems(pieces[1..])
  }

  /** `formatResponsibilities(text)`. */
  function FormatResponsibilities(text: string): string {
    if text == "" then "" else ListItems(NonBlank(Split(text, '-')))
  }

  /** Reference reading: the items the text lists, each trimmed, blanks dropped. */
  function Bullets(text: string): seq<string> {
    Items(Split(text, '-'))
  }

  function Items(pieces: seq<string>): seq<string>
    decreases |pieces|
  {
    if |pieces| == 0 then []
    else (if Trim(pieces[0]) != "" then [Trim(pieces[0])] else []) + Items(pieces[1..])
  }

  /** The markup of a list of items. */
  function Render(items: seq<string>): string
    decreases |items|
  {
    if |items| == 0 then "" else "<li>" + items[0] + "</li>" + Render(items[1..])
  }

  /** The formatter emits one `<li>` per item of the text, in order. */
  lemma {:induction false} FormatIsBulletList(text: string)
    ensures FormatResponsibilities(text) == Render(Bullets(text))
  {
    ListItemsRender(Split(text, '-'));
  }

  lemma {:induction false} ListItemsRender(pieces: seq<string>)
    ensures ListItems(NonBlank(pieces)) == Render(Items(pieces))
    decreases |pieces|
  {
    if |pieces| > 0 {
      ListItemsRender(pieces[1..]);
      var rest := NonBlank(pieces[1..]);
      if Trim(pieces[0]) != "" {
        assert NonBlank(pieces) == [pieces[0]] + rest;
        assert ([pieces[0]] + rest)[1..] == rest;
        assert Items(pieces) == [Trim(pieces[0])] + Items(pieces[1..]);
        assert ([Trim(pieces[0])] + Items(pieces[1..]))[1..] == Items(pieces[1..]);
      } else {
        assert NonBlank(pieces) == rest;
        assert Items(pieces) == Items(pieces[1..]);
      }
    }
  }

  /** The `!text` guard changes nothing: the empty text has no items anyway. */
  lemma {:induction false} EmptyTextHasNoItems()
    ensures FormatResponsibilities("") == ListItems(NonBlank(Split("", '-'))) == ""
  {
    assert Split("", '-') == [""];
    assert NonBlank([""]) == [] by {
      assert Trim("") == "";
    }
  }

  /** An item as the tooltip shows it: non-empty, already trimmed and free
      of `-`. */
  predicate Clean(b: string) {
    b != "" && Trim(b) == b && '-' !in b
  }

  /** Every item is non-empty, trimmed and free of `-`. */
  lemma {:induction false} BulletsAreClean(text: string)
    ensures forall k :: 0 <= k < |Bullets(text)| ==>
      var b := Bullets(text)[k];
      b != "" && Trim(b) == b && '-' !in b
  {
    SplitPiecesFree(text, '-');
    ItemsAreClean(Split(text, '-'));
  }

  lemma {:induction false} ItemsAreClean(pieces: seq<string>)
    requires forall k :: 0 <= k < |pieces| ==> '-' !in pieces[k]
    ensures forall k :: 0 <= k < |Items(pieces)| ==> Clean(Items(pieces)[k])
    decreases |pieces|
  {
    if |pieces| > 0 {
      var rest := pieces[1..];
      assert forall k :: 0 <= k < |rest| ==> rest[k] == pieces[k + 1];
      ItemsAreClean(rest);
      var t := Trim(pieces[0]);
      if t != "" {
        PieceIsClean(pieces[0]);
      }
      var first := if t != "" then [t] else [];
      CleanAppend(first, Items(rest));
    }
  }

  lemma {:induction false} PieceIsClean(p: string)
    requires '-' !in p
    requires Trim(p) != ""
    ensures Clean(Trim(p))
  {
    TrimIdempotent(p);
    TrimKeepsCharacters(p);
  }

  lemma {:induction false} CleanAppend(x: seq<string>, y: seq<string>)
    requires forall k :: 0 <= k < |x| ==> Clean(x[k])
    requires forall k :: 0 <= k < |y| ==> Clean(y[k])
    ensures forall k :: 0 <= k < |x + y| ==> Clean((x + y)[k])
  {
    forall k | 0 <= k < |x + y| ensures Clean((x + y)[k]) {
      if k >= |x| {
        assert (x + y)[k] == y[k - |x|];
      }
    }
  }

  /** Items keep the order of the text: the items of `a-b` are those of `a`
      followed by those of `b`. */
  lemma {:induction false} BulletsAround(a: string, b: string)
    ensures Bullets(a + "-" + b) == Bullets(a) + Bullets(b)
  {
    SplitAround(a, '-', b);
    ItemsAppend(Split(a, '-'), Split(b, '-'));
  }

  lemma {:induction false} ItemsAppend(x: seq<string>, y: seq<string>)
    ensures Items(x + y) == Items(x) + Items(y)
    decreases |x|
  {
    if |x| == 0 {
      assert x + y == y;
    } else {
      assert (x + y)[0] == x[0];
      assert (x + y)[1..] == x[1..] + y;
      ItemsAppend(x[1..], y);

    }
  }

  /** A text without `-` is one item, its trim, unless it is blank. */
  lemma {:induction false} BulletsOfOnePiece(text: string)
    requires '-' !in text
    ensures Bullets(text) == if Trim(text) == "" then [] else [Trim(text)]
  {
    SplitWithoutSeparator(text, '-');
    assert Bullets(text) == Items([text]);
    assert [text][1..] == [];
    assert Items([text][1..]) == [];
  }
}
