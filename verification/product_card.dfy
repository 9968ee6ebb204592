/**
 * The product card: the cart updates behind its button (keyed by product
 * code), the button's caption and style, and the title and feature lines.
 */
module ProductCard {
  import opened JsStrings
  import Seqs
  import opened ProductModel

  /** The cart: the chosen products, in the order they were chosen. */
  type Cart = seq<Product>

  /** `items.some(item => item.code === code)`: some chosen product carries the code. */
  function InCart(items: Cart, code: string): (b: bool)
    ensures b <==> exists x :: x in items && x.code == code
  {
    exists i :: 0 <= i < |items| && items[i].code == code
  }

  /** `addToCart`: the product goes after everything already chosen. */
  function AddToCart(items: Cart, p: Product): (r: Cart)
    ensures |r| == |items| + 1
    ensures r[..|items|] == items && r[|items|] == p
    ensures InCart(r, p.code)
  {
    var r := items + [p];
    assert r[|items|].code == p.code;
    r
  }

  /**
   * `removeFromCart`: every item with the product's code goes; every other
   * item stays.
   */
  function RemoveFromCart(items: Cart, p: Product): (r: Cart)
    ensures !InCart(r, p.code)
    ensures forall x :: x in r ==> x in items
    ensures forall x :: x in items && x.code != p.code ==> x in r
  {
    var r := Seqs.Filter(OtherCode(p.code), items);
    assert forall i :: 0 <= i < |r| ==> r[i] in r;
    r
  }

  /** The test `item.code !== code` that decides which items stay. */
  function OtherCode(code: string): Product -> bool
  {
    (x: Product) => x.code != code
  }

  /** Removal keeps the surviving items in their original relative order. */
  lemma RemoveKeepsOrder(a: Cart, b: Cart, p: Product)
    ensures RemoveFromCart(a + b, p) == RemoveFromCart(a, p) + RemoveFromCart(b, p)
  {
    Seqs.FilterAppend(OtherCode(p.code), a, b);
  }

  /** Removing a product that is not in the cart changes nothing. */
  lemma RemoveAbsent(items: Cart, p: Product)
    requires !InCart(items, p.code)
    ensures RemoveFromCart(items, p) == items
  {
    Seqs.FilterKeepsAll(OtherCode(p.code), items);
  }

  /** `handleAddToCart`: remove the product when its code is in the cart, add it otherwise. */
  function HandleAddToCart(items: Cart, p: Product): (r: Cart)
    ensures InCart(r, p.code) <==> !InCart(items, p.code)
    ensures forall x :: x in items && x.code != p.code ==> x in r
    ensures !InCart(items, p.code) ==> r == items + [p]
    ensures InCart(items, p.code) ==> r == Seqs.Filter(OtherCode(p.code), items)
  {
    if InCart(items, p.code) then RemoveFromCart(items, p) else AddToCart(items, p)
  }

  /** Pressing the button twice on a product that was not chosen leaves the cart as it was. */
  lemma HandleTwice(items: Cart, p: Product)
    requires !InCart(items, p.code)
    ensures HandleAddToCart(HandleAddToCart(items, p), p) == items
  {
    var once := items + [p];
    RemoveKeepsOrder(items, [p], p);
    RemoveAbsent(items, p);
    assert RemoveFromCart([p], p) == [];
  }

  datatype Variant = Primary | Secondary

  /** The button: `Wybrano` in the secondary style for a chosen product, `Wybierz` in the primary style otherwise. */
  function ButtonFor(items: Cart, code: string): (b: (string, Variant))
    ensures b.1 == Secondary <==> InCart(items, code)
    ensures b.0 == (if InCart(items, code) then "Wybrano" else "Wybierz")
  {
    if InCart(items, code) then ("Wybrano", Secondary) else ("Wybierz", Primary)
  }

  /** Pressing the button always switches its caption. */
  lemma ButtonSwitches(items: Cart, p: Product)
    ensures ButtonFor(HandleAddToCart(items, p), p.code).0 != ButtonFor(items, p.code).0
  {
  }

  /**
   * `parseTitle`: code, name, capacity with `kg`, and colour, separated by
   * commas; `showNumber` is JavaScript's conversion of a number to text.
   */
  function Title(p: Product, showNumber: real -> string): (r: string)
    ensures |p.code| + 2 <= |r| && r[..|p.code| + 2] == p.code + ", "
    ensures |p.color| <= |r| && r[|r| - |p.color|..] == p.color
  {
    var r := p.code + ", " + p.name + ", " + showNumber(p.capacity) + "kg, " + p.color;
    assert r == (p.code + ", ") + (p.name + ", " + showNumber(p.capacity) + "kg, " + p.color);
    r
  }

  /**
   * The title is the four parts joined by commas: splitting it on commas
   * gives back the code, the name, the capacity with `kg` and the colour,
   * each after the space the template puts there, when no part has a comma.
   */
  lemma TitleParts(p: Product, showNumber: real -> string)
    requires ',' !in p.code && ',' !in p.name && ',' !in showNumber(p.capacity) && ',' !in p.color
    ensures Split(Title(p, showNumber), ',')
      == [p.code, " " + p.name, " " + showNumber(p.capacity) + "kg", " " + p.color]
  {
    var parts := TitlePieces(p, showNumber);
    TitleIsJoin(p, showNumber);
    NoComma(" ", p.name);
    NoComma(" " + showNumber(p.capacity), "kg");
    NoComma(" ", showNumber(p.capacity));
    NoComma(" ", p.color);
    SplitJoin(parts, ',');
  }

  /** The four comma-separated parts the title template writes. */
  function TitlePieces(p: Product, showNumber: real -> string): (r: seq<string>)
    ensures |r| == 4
  {
    [p.code, " " + p.name, " " + showNumber(p.capacity) + "kg", " " + p.color]
  }

  lemma TitleIsJoin(p: Product, showNumber: real -> string)
    ensures Title(p, showNumber) == Join(TitlePieces(p, showNumber), ",")
  {
    var n, k, c := p.name, showNumber(p.capacity), p.color;
    JoinHead(" " + k + "kg", [" " + c]);
    assert [" " + k + "kg"] + [" " + c] == [" " + k + "kg", " " + c];
    JoinHead(" " + n, [" " + k + "kg", " " + c]);
    assert [" " + n] + [" " + k + "kg", " " + c] == TitlePieces(p, showNumber)[1..];
    JoinHead(p.code, TitlePieces(p, showNumber)[1..]);
    assert [p.code] + TitlePieces(p, showNumber)[1..] == TitlePieces(p, showNumber);
    TemplateText(p.code, n, k, c);
  }

  /** The title template, regrouped as comma-separated parts. */
  lemma TemplateText(code: string, n: string, k: string, c: string)
    ensures code + ", " + n + ", " + k + "kg, " + c
      == code + "," + ((" " + n) + "," + ((" " + k + "kg") + "," + (" " + c)))
  {
    var lhs := code + ", " + n + ", " + k + "kg, " + c;
    var rhs := code + "," + ((" " + n) + "," + ((" " + k + "kg") + "," + (" " + c)));
    assert |lhs| == |rhs|;
    forall i | 0 <= i < |lhs| ensures lhs[i] == rhs[i] {
    }
  }

  lemma NoComma(s: string, t: string)
    requires ',' !in s && ',' !in t
    ensures ',' !in s + t
  {
  }

  /** The text before the first comma of a title is the product code, when the code has no comma. */
  lemma TitleLeadsWithCode(p: Product, showNumber: real -> string)
    requires ',' !in p.code
    ensures Split(Title(p, showNumber), ',')[0] == p.code
  {
    var rest := " " + p.name + ", " + showNumber(p.capacity) + "kg, " + p.color;
    assert Title(p, showNumber) == p.code + [','] + rest;
    FirstSegment(p.code, rest);
  }

  /** Splitting `a + "," + b` on commas yields `a` first when `a` has no comma. */
  lemma {:induction false} FirstSegment(a: string, b: string)
    requires ',' !in a
    ensures Split(a + [','] + b, ',')[0] == a
    decreases |a|
  {
    if |a| > 0 {
      assert (a + [','] + b)[1..] == a[1..] + [','] + b;
      assert forall x :: x in a[1..] ==> x in a;
      FirstSegment(a[1..], b);
      assert [a[0]] + a[1..] == a;
    } else {
      assert a + [','] + b == [','] + b;
    }
  }

  /** `parseFeatures`: the features joined by a comma and a space. */
  function FeaturesText(features: seq<string>): (r: string)
    ensures |features| == 1 ==> r == features[0]
    ensures |features| == 0 ==> r == ""
  {
    Join(features, ", ")
  }

  /**
   * The feature line holds each feature in turn: joining with `", "` is
   * joining with `","` after a space is put before every feature but the first.
   */
  lemma {:induction false} FeaturesTextSpaced(features: seq<string>)
    requires |features| > 0
    ensures FeaturesText(features) == Join([features[0]] + Spaced(features[1..]), ",")
    decreases |features|
  {
    if |features| > 1 {
      var tail := features[1..];
      FeaturesTextSpaced(tail);
      assert tail[1..] == features[2..];
      var spaced := [features[0]] + Spaced(tail);
      assert spaced[1..] == Spaced(tail);
      assert Spaced(tail) == [" " + tail[0]] + Spaced(tail[1..]);
      JoinHead(" " + tail[0], Spaced(tail[1..]));
    }
  }

  lemma JoinHead(h: string, rest: seq<string>)
    ensures Join([h] + rest, ",") == (if |rest| == 0 then h else h + "," + Join(rest, ","))
  {
    assert ([h] + rest)[1..] == rest;
  }

  function Spaced(xs: seq<string>): (r: seq<string>)
    ensures |r| == |xs|
    ensures forall i :: 0 <= i < |xs| ==> r[i] == " " + xs[i]
  {
    if |xs| == 0 then [] else [" " + xs[0]] + Spaced(xs[1..])
  }

  /**
   * The feature line can be read back: splitting it on commas and trimming
   * the pieces gives the features, as long as no feature contains a comma or
   * carries white space at its ends.
   */
  lemma FeaturesRecoverable(features: seq<string>)
    requires |features| > 0
    requires forall i :: 0 <= i < |features| ==> ',' !in features[i] && Trim(features[i]) == features[i]
    ensures var pieces := Split(FeaturesText(features), ',');
      |pieces| == |features| && forall i :: 0 <= i < |features| ==> Trim(pieces[i]) == features[i]
  {
    var spaced := [features[0]] + Spaced(features[1..]);
    FeaturesTextSpaced(features);
    forall i | 0 <= i < |spaced| ensures ',' !in spaced[i] {
      if i > 0 {
        assert spaced[i] == " " + features[i];
      }
    }
    SplitJoin(spaced, ',');
    forall i | 0 <= i < |features| ensures Trim(spaced[i]) == features[i] {
      if i > 0 {
        assert spaced[i] == " " + features[i];
        TrimLeadingSpace(features[i]);
      }
    }
  }

  lemma TrimLeadingSpace(f: string)
    requires |f| == 0 || (!IsWhite(f[0]) && !IsWhite(f[|f| - 1]))
    ensures Trim(" " + f) == f
  {
    assert (" " + f)[1..] == f;
    assert TrimStart(" " + f) == TrimStart(f);
    assert TrimStart(f) == f;
  }
}
