/** The part of the catalog parser that both catalog servers share: what a
    product card yields, how a price is read from its text, which URL each
    catalog page has, how one page becomes a list of products, and how the
    products of a batch are summarised into the saved result. */
module Catalog {
  import opened Common

  // ---------------------------------------------------------------------
  // Product cards

  /** The `p.set-card__title` element of a card: its stripped text and, when
      it holds an `a.di_b.c_b` link, the link's stripped text. */
  datatype Title = Title(text: string, link: Option<string>)

  /** One `div.set-card.block` as the HTML library hands it over: the stripped
      texts of the elements the parser looks for, each absent when the card
      has no such element. `Unparseable` is a card on which the HTML library
      raised, so that the card parser's own exception handler returned None. */
  datatype Card =
    | Card(title: Option<Title>, priceText: Option<string>, labelText: Option<string>)
    | Unparseable

  datatype Product = Product(name: string, price: nat, labelText: string)

  const NoName: string := "Без названия"

  function ProductName(title: Option<Title>): string {
    match title
    case None => NoName
    case Some(Title(text, link)) =>
      match link
      case Some(linkText) => linkText
      case None => text
  }

  function ProductLabel(labelText: Option<string>): string {
    labelText.GetOr("")
  }

  /** The card parser: None exactly for a card the HTML library cannot read;
      otherwise the product with its name, price and label. */
  function ParseProductCard(card: Card): (r: Option<Product>)
    ensures r.None? <==> card.Unparseable?
    ensures r.Some? ==> (r.value.name == ProductName(card.title)
                         && r.value.price == ExtractPrice(card.priceText)
                         && r.value.labelText == ProductLabel(card.labelText))
  {
    match card
    case Unparseable => None
    case Card(title, priceText, labelText) =>
      Some(Product(ProductName(title), ExtractPrice(priceText), ProductLabel(labelText)))
  }

  /** A card without a title element is named "Без названия"; a card without
      a label element gets the empty label; a title link wins over the
      title's own text. */
  lemma CardFieldDefaults(card: Card)
    requires card.Card?
    ensures card.title.None? ==> ParseProductCard(card).value.name == NoName
    ensures card.labelText.None? ==> ParseProductCard(card).value.labelText == ""
    ensures card.labelText.Some? ==> ParseProductCard(card).value.labelText == card.labelText.value
    ensures card.title.Some? && card.title.value.link.Some? ==>
              ParseProductCard(card).value.name == card.title.value.link.value
    ensures card.title.Some? && card.title.value.link.None? ==>
              ParseProductCard(card).value.name == card.title.value.text
  {
  }

  // ---------------------------------------------------------------------
  // Prices: re.search(r'[\d\s]+(?=\s*₽)', text), drop ' ', int(), else 0

  const Rouble: char := '₽'

  /** One character of the class `[\d\s]` (ASCII digits; see README). */
  predicate IsPriceChar(c: char) { IsDigit(c) || IsPySpace(c) }

  /** The first index at or after i that is not whitespace. */
  function SkipSpaces(s: string, i: nat): (p: nat)
    requires i <= |s|
    ensures i <= p <= |s|
    ensures forall q :: i <= q < p ==> IsPySpace(s[q])
    ensures p == |s| || !IsPySpace(s[p])
    decreases |s| - i
  {
    if i < |s| && IsPySpace(s[i]) then SkipSpaces(s, i + 1) else i
  }

  /** The lookahead `(?=\s*₽)` succeeds at position j. */
  predicate RoubleAhead(s: string, j: nat)
    requires j <= |s|
  {
    var p := SkipSpaces(s, j);
    p < |s| && s[p] == Rouble
  }

  /** The end of the longest run of `[\d\s]` characters starting at i. */
  function RunEnd(s: string, i: nat): (k: nat)
    requires i <= |s|
    ensures i <= k <= |s|
    ensures forall q :: i <= q < k ==> IsPriceChar(s[q])
    ensures k == |s| || !IsPriceChar(s[k])
    decreases |s| - i
  {
    if i < |s| && IsPriceChar(s[i]) then RunEnd(s, i + 1) else i
  }

  /** The greedy `+` backtracking: the longest end j' in (i, j] at which the
      lookahead holds. */
  function Backtrack(s: string, i: nat, j: nat): (r: Option<nat>)
    requires j <= |s|
    ensures r.Some? ==> i < r.value <= j && RoubleAhead(s, r.value)
    decreases j
  {
    if j <= i then None
    else if RoubleAhead(s, j) then Some(j)
    else Backtrack(s, i, j - 1)
  }

  /** re.search: the leftmost start at or after i at which the pattern
      matches, with the end the greedy match reaches from there. */
  function SearchFrom(s: string, i: nat): (r: Option<(nat, nat)>)
    requires i <= |s|
    ensures r.Some? ==> i <= r.value.0 < r.value.1 <= |s| && RoubleAhead(s, r.value.1)
    ensures r.Some? ==> forall q :: r.value.0 <= q < r.value.1 ==> IsPriceChar(s[q])
    decreases |s| - i
  {
    if i == |s| then None
    else
      match Backtrack(s, i, RunEnd(s, i))
      case Some(j) => Some((i, j))
      case None => SearchFrom(s, i + 1)
  }

  /** The text of the regular-expression match, if there is one. */
  function PriceMatch(s: string): (r: Option<string>)
    ensures r.Some? ==> r.value != [] && forall q :: 0 <= q < |r.value| ==> IsPriceChar(r.value[q])
  {
    match SearchFrom(s, 0)
    case None => None
    case Some((i, j)) => Some(s[i..j])
  }

  /** The pattern matches s[a..b]: a non-empty run of `[\d\s]` whose end
      the lookahead accepts. */
  ghost predicate MatchAt(s: string, a: nat, b: nat) {
    a < b <= |s| && (forall q :: a <= q < b ==> IsPriceChar(s[q])) && RoubleAhead(s, b)
  }

  /** A run of price characters from a never reaches past RunEnd(s, a). */
  lemma {:induction false} RunEndCovers(s: string, a: nat, b: nat)
    requires a <= b <= |s| && forall q :: a <= q < b ==> IsPriceChar(s[q])
    ensures b <= RunEnd(s, a)
    decreases b - a
  {
    if a < b {
      RunEndCovers(s, a + 1, b);
    }
  }

  /** Backtracking keeps the longest end at which the lookahead holds, and
      finds none only when there is none in (i, j]. */
  lemma {:induction false} BacktrackLongest(s: string, i: nat, j: nat)
    requires j <= |s|
    ensures Backtrack(s, i, j).Some? ==>
              forall e :: Backtrack(s, i, j).value < e <= j ==> !RoubleAhead(s, e)
    ensures Backtrack(s, i, j).None? ==> forall e :: i < e <= j ==> !RoubleAhead(s, e)
    decreases j
  {
    if i < j && !RoubleAhead(s, j) {
      BacktrackLongest(s, i, j - 1);
    }
  }

  /** re.search from i: None exactly when no match starts at or after i;
      otherwise the match starts as far left as possible and, from there,
      ends as far right as possible. */
  lemma {:induction false} SearchFromLeftmostLongest(s: string, i: nat)
    requires i <= |s|
    ensures SearchFrom(s, i).None? ==> forall a: nat, b: nat :: i <= a && MatchAt(s, a, b) ==> false
    ensures SearchFrom(s, i).Some? ==>
              var (a, b) := SearchFrom(s, i).value;
              && MatchAt(s, a, b)
              && (forall a': nat, b': nat :: i <= a' < a && MatchAt(s, a', b') ==> false)
              && (forall b': nat :: MatchAt(s, a, b') ==> b' <= b)
    decreases |s| - i
  {
    if i < |s| {
      var end := RunEnd(s, i);
      BacktrackLongest(s, i, end);
      forall b | MatchAt(s, i, b)
        ensures b <= end && RoubleAhead(s, b)
      {
        RunEndCovers(s, i, b);
      }
      if Backtrack(s, i, end).None? {
        SearchFromLeftmostLongest(s, i + 1);
      }
    }
  }

  /** PriceMatch is the text of re.search's match: none when the pattern
      matches nowhere, otherwise the leftmost match, taken as long as
      possible. */
  lemma PriceMatchLeftmostLongest(s: string)
    ensures PriceMatch(s).None? ==> forall a: nat, b: nat :: MatchAt(s, a, b) ==> false
    ensures PriceMatch(s).Some? ==>
              var (a, b) := SearchFrom(s, 0).value;
              && PriceMatch(s).value == s[a..b]
              && MatchAt(s, a, b)
              && (forall a': nat, b': nat :: MatchAt(s, a', b') ==> a <= a')
              && (forall b': nat :: MatchAt(s, a, b') ==> b' <= b)
  {
    SearchFromLeftmostLongest(s, 0);
  }

  /** A match exists exactly when some '₽' directly follows a digit or a
      whitespace character. */
  lemma PriceMatchExists(s: string)
    ensures PriceMatch(s).Some? <==>
            exists k :: 0 < k < |s| && s[k] == Rouble && IsPriceChar(s[k - 1])
  {
    if PriceMatch(s).Some? {
      var m := SearchFrom(s, 0).value;
      var p := SkipSpaces(s, m.1);
      assert 0 < p < |s| && s[p] == Rouble && IsPriceChar(s[p - 1]);
    }
    if k :| 0 < k < |s| && s[k] == Rouble && IsPriceChar(s[k - 1]) {
      SearchReaches(s, 0, k);
    }
  }

  lemma {:induction false} SearchReaches(s: string, i: nat, k: nat)
    requires i < k < |s| && s[k] == Rouble && IsPriceChar(s[k - 1])
    ensures SearchFrom(s, i).Some?
    decreases k - i
  {
    if Backtrack(s, i, RunEnd(s, i)).None? {
      if i + 1 < k {
        SearchReaches(s, i + 1, k);
      } else {
        assert false;
      }
    }
  }

  /** Whitespace that int() skips around the digits. CPython maps every
      non-ASCII whitespace character to ' ' and then skips " \t\n\v\f\r", so
      the separators '\x1c'..'\x1f', which `\s` does match, make int() fail. */
  predicate IsIntSpace(c: char) { IsPySpace(c) && !('\U{1C}' <= c <= '\U{1F}') }

  function TrimIntSpace(s: string): (r: string)
    ensures |r| <= |s|
    decreases |s|
  {
    if s != [] && IsIntSpace(s[0]) then TrimIntSpace(s[1..])
    else if s != [] && IsIntSpace(s[|s| - 1]) then TrimIntSpace(s[..|s| - 1])
    else s
  }

  /** int(s) on a string of digits and whitespace: the surrounding whitespace
      is ignored and what is left must be a non-empty run of digits. */
  function PyInt(s: string): Option<nat> {
    var t := TrimIntSpace(s);
    if t != [] && AllDigits(t) then Some(DigitsValue(t)) else None
  }

  /** The text int() accepts: the digits s[a..b], with nothing around them
      but whitespace that int() skips. */
  ghost predicate IntForm(s: string, a: nat, b: nat) {
    a < b <= |s| && AllDigits(s[a..b])
    && (forall k :: 0 <= k < a ==> IsIntSpace(s[k]))
    && (forall k :: b <= k < |s| ==> IsIntSpace(s[k]))
  }

  /** TrimIntSpace keeps one piece s[a..b] of its input: everything dropped
      is whitespace int() skips, and a non-empty piece neither starts nor
      ends with such whitespace. */
  lemma {:induction false} TrimIntSpaceBounds(s: string) returns (a: nat, b: nat)
    ensures a <= b <= |s| && TrimIntSpace(s) == s[a..b]
    ensures forall k :: 0 <= k < a ==> IsIntSpace(s[k])
    ensures forall k :: b <= k < |s| ==> IsIntSpace(s[k])
    ensures a < b ==> !IsIntSpace(s[a]) && !IsIntSpace(s[b - 1])
    decreases |s|
  {
    if s != [] && IsIntSpace(s[0]) {
      var t := s[1..];
      var a', b' := TrimIntSpaceBounds(t);
      a, b := a' + 1, b' + 1;
      assert t[a'..b'] == s[a..b];
      forall k | 0 <= k < a
        ensures IsIntSpace(s[k])
      {
        if k > 0 { assert s[k] == t[k - 1]; }
      }
      forall k | b <= k < |s|
        ensures IsIntSpace(s[k])
      {
        assert s[k] == t[k - 1];
      }
    } else if s != [] && IsIntSpace(s[|s| - 1]) {
      var t := s[..|s| - 1];
      a, b := TrimIntSpaceBounds(t);
      assert t[a..b] == s[a..b];
      forall k | b <= k < |s|
        ensures IsIntSpace(s[k])
      {
        if k < |s| - 1 { assert s[k] == t[k]; }
      }
    } else {
      a, b := 0, |s|;
      assert s[a..b] == s;
    }
  }

  /** The digits int() reads are the piece TrimIntSpace keeps. */
  lemma IntFormIsTrim(s: string, a: nat, b: nat, a': nat, b': nat)
    requires a <= b <= |s|
    requires forall k :: 0 <= k < a ==> IsIntSpace(s[k])
    requires forall k :: b <= k < |s| ==> IsIntSpace(s[k])
    requires a < b ==> !IsIntSpace(s[a]) && !IsIntSpace(s[b - 1])
    requires IntForm(s, a', b')
    ensures a == a' && b == b'
  {
    assert IsDigit(s[a'..b'][0]) && IsDigit(s[a'..b'][b' - a' - 1]);
    assert !IsIntSpace(s[a']) && !IsIntSpace(s[b' - 1]);
  }

  /** int() on text of this kind succeeds exactly when the text is digits
      surrounded by the whitespace it skips, and then gives the value of
      those digits. */
  lemma PyIntAccepts(s: string)
    ensures PyInt(s).Some? <==> exists a: nat, b: nat :: IntForm(s, a, b)
    ensures forall a: nat, b: nat :: IntForm(s, a, b) ==> PyInt(s) == Some(DigitsValue(s[a..b]))
  {
    var a, b := TrimIntSpaceBounds(s);
    if PyInt(s).Some? {
      assert IntForm(s, a, b);
    }
    forall a': nat, b': nat | IntForm(s, a', b')
      ensures PyInt(s) == Some(DigitsValue(s[a'..b']))
    {
      IntFormIsTrim(s, a, b, a', b');
    }
  }

  /** str.replace(' ', ''): removes the ASCII space only. */
  function RemoveAsciiSpaces(s: string): (r: string)
    ensures forall q :: 0 <= q < |r| ==> r[q] != ' '
    ensures forall c :: c in r <==> c in s && c != ' '
    decreases |s|
  {
    if s == [] then []
    else if s[0] == ' ' then RemoveAsciiSpaces(s[1..])
    else [s[0]] + RemoveAsciiSpaces(s[1..])
  }

  /** replace(' ', '') keeps every other character as often as it occurs ... */
  lemma {:induction false} RemoveAsciiSpacesCounts(s: string)
    ensures multiset(RemoveAsciiSpaces(s)) == multiset(s)[' ' := 0]
    decreases |s|
  {
    if s != [] {
      RemoveAsciiSpacesCounts(s[1..]);
      assert s == [s[0]] + s[1..];
    }
  }

  /** ... and in the order it occurs: the text splits at any point. */
  lemma {:induction false} RemoveAsciiSpacesAppend(a: string, b: string)
    ensures RemoveAsciiSpaces(a + b) == RemoveAsciiSpaces(a) + RemoveAsciiSpaces(b)
    decreases |a|
  {
    if a != [] {
      assert (a + b)[1..] == a[1..] + b;
      RemoveAsciiSpacesAppend(a[1..], b);
    } else {
      assert a + b == b;
    }
  }

  /** The price of a card, from the text of its price element. */
  function ExtractPrice(priceText: Option<string>): nat {
    match priceText
    case None => 0
    case Some(text) =>
      match PriceMatch(text)
      case None => 0
      case Some(m) => PyInt(RemoveAsciiSpaces(m)).GetOr(0)
  }

  /** When the price is not 0, it is the value of the digits of a match that
      int() accepted; the other cases all fall back to 0. */
  lemma PriceZeroCases(priceText: Option<string>)
    ensures priceText.None? ==> ExtractPrice(priceText) == 0
    ensures priceText.Some? && PriceMatch(priceText.value).None? ==> ExtractPrice(priceText) == 0
    ensures priceText.Some? && PriceMatch(priceText.value).Some?
            && PyInt(RemoveAsciiSpaces(PriceMatch(priceText.value).value)).None?
            ==> ExtractPrice(priceText) == 0
    ensures ExtractPrice(priceText) != 0 ==>
              priceText.Some? && PriceMatch(priceText.value).Some?
              && PyInt(RemoveAsciiSpaces(PriceMatch(priceText.value).value)) == Some(ExtractPrice(priceText))
  {
  }

  /** A price with no '₽' right after a digit or a space is 0. */
  lemma NoRoubleNoPrice(text: string)
    requires forall k :: 0 < k < |text| && text[k] == Rouble ==> !IsPriceChar(text[k - 1])
    ensures ExtractPrice(Some(text)) == 0
  {
    PriceMatchExists(text);
  }

  lemma {:induction false} RunOverPriceChars(s: string, i: nat, n: nat)
    requires i <= n < |s|
    requires forall q :: i <= q < n ==> IsPriceChar(s[q])
    requires !IsPriceChar(s[n])
    ensures RunEnd(s, i) == n
    decreases n - i
  {
    if i < n {
      RunOverPriceChars(s, i + 1, n);
    }
  }

  lemma {:induction false} RemoveSpacesOfDigits(s: string)
    requires AllDigits(s)
    ensures RemoveAsciiSpaces(s + " ") == s
    decreases |s|
  {
    if s != [] {
      RemoveSpacesOfDigits(s[1..]);
      assert (s + " ")[1..] == s[1..] + " ";
    }
  }

  /** A run of digits and whitespace directly followed by '₽' at the start
      of the text is the match as a whole, whatever follows. */
  lemma MatchBeforeRouble(m: string, rest: string)
    requires m != [] && forall q :: 0 <= q < |m| ==> IsPriceChar(m[q])
    ensures PriceMatch(m + [Rouble] + rest) == Some(m)
  {
    var s := m + [Rouble] + rest;
    RunOverPriceChars(s, 0, |m|);
    assert SkipSpaces(s, |m|) == |m|;
    assert Backtrack(s, 0, |m|) == Some(|m|);
    var start: nat, end: nat := 0, |m|;
    assert SearchFrom(s, 0) == Some((start, end));
    assert s[0..|m|] == m;
  }

  /** The usual price text "<digits> ₽" reads back the number it shows,
      whatever text follows it. */
  lemma {:induction false} PriceRoundTrip(n: nat, rest: string)
    ensures ExtractPrice(Some(NatToString(n) + " " + [Rouble] + rest)) == n
  {
    var d := NatToString(n);
    MatchBeforeRouble(d + " ", rest);
    RemoveSpacesOfDigits(d);
    assert TrimIntSpace(d) == d;
    NatToStringRoundTrip(n);
  }

  /** Digit groups separated by a no-break space (U+00A0), which `\s`
      matches but replace(' ', '') keeps, make int() fail: the price is 0. */
  lemma NoBreakSpaceGroupedPriceIsZero()
    ensures ExtractPrice(Some("1\U{A0}234 ₽")) == 0
  {
    MatchBeforeRouble("1\U{A0}234 ", "");
    assert "1\U{A0}234 " + [Rouble] + "" == "1\U{A0}234 ₽";
    RemoveAsciiSpacesSteps();
    var t := "1\U{A0}234";
    assert !IsIntSpace(t[0]) && !IsIntSpace(t[|t| - 1]);
    assert TrimIntSpace(t) == t;
    assert !IsDigit(t[1]);
  }

  /** With ASCII spaces between the digit groups the price is read. */
  lemma AsciiSpaceGroupedPrice()
    ensures ExtractPrice(Some("1 234 ₽")) == 1234
  {
    MatchBeforeRouble("1 234 ", "");
    assert "1 234 " + [Rouble] + "" == "1 234 ₽";
    RemoveAsciiSpacesSteps();
    ReadThousands();
  }

  /** Of two prices in one text, the first one is read. */
  lemma FirstPriceWins()
    ensures ExtractPrice(Some("1500 ₽ 1200 ₽")) == 1500
  {
    MatchBeforeRouble("1500 ", " 1200 ₽");
    assert "1500 " + [Rouble] + " 1200 ₽" == "1500 ₽ 1200 ₽";
    RemoveSpacesOfDigits("1500");
    assert "1500" + " " == "1500 ";
    ReadFifteenHundred();
  }

  lemma ReadFifteenHundred()
    ensures PyInt("1500") == Some(1500)
  {
    assert TrimIntSpace("1500") == "1500";
    assert "1500"[..3] == "150" && "150"[..2] == "15" && "15"[..1] == "1" && "1"[..0] == "";
    assert DigitsValue("1500") == 1500;
    assert AllDigits("1500");
  }

  lemma ReadThousands()
    ensures PyInt("1234") == Some(1234)
  {
    assert TrimIntSpace("1234") == "1234";
    assert "1234"[..3] == "123" && "123"[..2] == "12" && "12"[..1] == "1" && "1"[..0] == "";
    assert DigitsValue("1234") == 1234;
    assert AllDigits("1234");
  }

  lemma RemoveAsciiSpacesSteps()
    ensures RemoveAsciiSpaces("1\U{A0}234 ") == "1\U{A0}234"
    ensures RemoveAsciiSpaces("1 234 ") == "1234"
  {
    assert "1\U{A0}234 "[1..] == "\U{A0}234 " && "\U{A0}234 "[1..] == "234 ";
    assert "1 234 "[1..] == " 234 " && " 234 "[1..] == "234 ";
    assert "234 "[1..] == "34 " && "34 "[1..] == "4 " && "4 "[1..] == " " && " "[1..] == "";
  }

  // ---------------------------------------------------------------------
  // Catalog pages

  /** Page 1 is the catalog URL itself; page n is `url?PAGEN_1=n`. */
  function PageUrl(base: string, page: int): string {
    if page == 1 then base else base + "?PAGEN_1=" + IntToString(page)
  }

  /** Different page numbers have different URLs. */
  lemma PageUrlInjective(base: string, p: int, q: int)
    requires PageUrl(base, p) == PageUrl(base, q)
    ensures p == q
  {
    var prefix := base + "?PAGEN_1=";
    if p != 1 && q != 1 {
      assert PageUrl(base, p)[|prefix|..] == IntToString(p);
      assert PageUrl(base, q)[|prefix|..] == IntToString(q);
      IntToStringInjective(p, q);
    } else if p != 1 || q != 1 {
      assert false;
    }
  }

  /** The page URLs of `range(start, end + 1)`, in that order. */
  function PageUrls(base: string, start: int, end: int): (urls: seq<string>)
    ensures |urls| == if end < start then 0 else end - start + 1
    ensures forall k :: 0 <= k < |urls| ==> urls[k] == PageUrl(base, start + k)
  {
    seq(if end < start then 0 else end - start + 1, k => PageUrl(base, start + k))
  }

  /** The batch holds every page exactly once: no URL repeats. */
  lemma PageUrlsDistinct(base: string, start: int, end: int)
    ensures var urls := PageUrls(base, start, end);
            forall i, j :: 0 <= i < j < |urls| ==> urls[i] != urls[j]
  {
    var urls := PageUrls(base, start, end);
    forall i, j | 0 <= i < j < |urls|
      ensures urls[i] != urls[j]
    {
      if urls[i] == urls[j] {
        PageUrlInjective(base, start + i, start + j);
      }
    }
  }

  /** What parsing one page gives: `Raised` when the HTML library raised on
      the page, otherwise the page's products. */
  datatype PageResult = Parsed(products: seq<Product>) | Raised

  /** The products of a list of cards, in card order, without the cards
      whose parse returned None. */
  function CardProducts(cards: seq<Card>): seq<Product>
    decreases |cards|
  {
    if cards == [] then []
    else
      var front := CardProducts(cards[..|cards| - 1]);
      match ParseProductCard(cards[|cards| - 1])
      case None => front
      case Some(p) => front + [p]
  }

  /** Every product comes from a parseable card, in order, and every
      parseable card gives one product. */
  lemma {:induction false} CardProductsCount(cards: seq<Card>)
    ensures |CardProducts(cards)| == SumBy(cards, (c: Card) => if c.Card? then 1 else 0)
    ensures |CardProducts(cards)| <= |cards|
    ensures forall p :: p in CardProducts(cards) ==>
              exists c :: c in cards && ParseProductCard(c) == Some(p)
    decreases |cards|
  {
    if cards != [] {
      var front := cards[..|cards| - 1];
      CardProductsCount(front);
      forall p | p in CardProducts(cards)
        ensures exists c :: c in cards && ParseProductCard(c) == Some(p)
      {
        if p in CardProducts(front) {
          var c :| c in front && ParseProductCard(c) == Some(p);
          assert c in cards;
        } else {
          assert ParseProductCard(cards[|cards| - 1]) == Some(p);
        }
      }
    }
  }

  /** Model of the page parser: no page (non-200 status, a network error)
      and an empty page give no products; otherwise the HTML library
      either raises or hands over the cards, whose products are kept. */
  function PageOutcome(html: Option<string>, soup: string -> Option<seq<Card>>): PageResult {
    if html.None? || html.value == "" then Parsed([])
    else
      match soup(html.value)
      case None => Raised
      case Some(cards) => Parsed(CardProducts(cards))
  }

  /** parse_page / parse_catalog_page: fetch the page, find its cards and
      collect the product of every card that parses. */
  method ParsePage(url: string, fetch: string -> Option<string>, soup: string -> Option<seq<Card>>)
    returns (r: PageResult)
    ensures r == PageOutcome(fetch(url), soup)
  {
    var html := fetch(url);
    if html.None? || html.value == "" {
      return Parsed([]);
    }
    var found := soup(html.value);
    if found.None? {
      return Raised;
    }
    var cards := found.value;
    var products: seq<Product> := [];
    for i := 0 to |cards|
      invariant products == CardProducts(cards[..i])
    {
      assert cards[..i + 1][..i] == cards[..i];
      var data := ParseProductCard(cards[i]);
      if data.Some? {
        products := products + [data.value];
      }
    }
    assert cards[..|cards|] == cards;
    return Parsed(products);
  }

  /** A page that cannot be fetched gives no products and does not raise. */
  lemma NoHtmlNoProducts(url: string, fetch: string -> Option<string>, soup: string -> Option<seq<Card>>)
    requires fetch(url).None? || fetch(url) == Some("")
    ensures PageOutcome(fetch(url), soup) == Parsed([])
  {
  }

  /** The product lists of the pages that did not raise, in page order. */
  function Successes(urls: seq<string>, fetch: string -> Option<string>, soup: string -> Option<seq<Card>>)
    : seq<seq<Product>>
    decreases |urls|
  {
    if urls == [] then []
    else
      var front := Successes(urls[..|urls| - 1], fetch, soup);
      match PageOutcome(fetch(urls[|urls| - 1]), soup)
      case Raised => front
      case Parsed(ps) => front + [ps]
  }

  /** Exactly one product list per page that did not raise. */
  lemma {:induction false} SuccessesCount(urls: seq<string>, fetch: string -> Option<string>, soup: string -> Option<seq<Card>>)
    ensures |Successes(urls, fetch, soup)| ==
            SumBy(urls, (u: string) => if PageOutcome(fetch(u), soup).Parsed? then 1 else 0)
    ensures |Successes(urls, fetch, soup)| <= |urls|
    ensures (forall i :: 0 <= i < |urls| ==> PageOutcome(fetch(urls[i]), soup).Parsed?) ==>
              |Successes(urls, fetch, soup)| == |urls|
    decreases |urls|
  {
    if urls != [] {
      SuccessesCount(urls[..|urls| - 1], fetch, soup);
    }
  }

  // ---------------------------------------------------------------------
  // Batch summary

  /** How many products the saved result keeps. */
  const SampleSize: nat := 100

  function PriceOf(p: Product): int { p.price }

  function TotalPrice(products: seq<Product>): (t: int)
    ensures t >= 0
  {
    SumByNonNegative(products, PriceOf);
    SumBy(products, PriceOf)
  }

  /** `total_products`, `total_price` and the stored sample `products`. */
  datatype Summary = Summary(totalProducts: nat, totalPrice: int, products: seq<Product>)

  /** The saved summary counts and prices the whole list but stores only
      its first 100 products. */
  function Summarize(all: seq<Product>): (s: Summary)
    ensures s.totalProducts == |all| && s.totalPrice == TotalPrice(all)
    ensures |s.products| == Min(SampleSize, |all|)
    ensures s.products <= all
  {
    Summary(|all|, TotalPrice(all), all[..Min(SampleSize, |all|)])
  }

  function PerPageCount(ps: seq<Product>): int { |ps| }

  /** The totals of a batch are the sums of the per-page totals. */
  lemma {:induction false} SummaryOfPages(pages: seq<seq<Product>>)
    ensures Summarize(Concat(pages)).totalProducts == SumBy(pages, PerPageCount)
    ensures Summarize(Concat(pages)).totalPrice == SumBy(pages, TotalPrice)
  {
    ConcatLength(pages);
    assert SumBy(pages, PerPageCount) == SumBy(pages, (s: seq<Product>) => |s|) by {
      SumByExtensional(pages, PerPageCount, (s: seq<Product>) => |s|);
    }
    SumByConcat(pages, PriceOf, TotalPrice);
  }

  lemma {:induction false} SumByExtensional<T>(s: seq<T>, f: T -> int, g: T -> int)
    requires forall x :: f(x) == g(x)
    ensures SumBy(s, f) == SumBy(s, g)
    decreases |s|
  {
    if s != [] {
      SumByExtensional(s[..|s| - 1], f, g);
    }
  }

  /** The order in which per-page product lists arrive does not change
      `total_products` or `total_price`. */
  lemma TotalsIgnoreArrivalOrder(a: seq<seq<Product>>, b: seq<seq<Product>>)
    requires multiset(a) == multiset(b)
    ensures Summarize(Concat(a)).totalProducts == Summarize(Concat(b)).totalProducts
    ensures Summarize(Concat(a)).totalPrice == Summarize(Concat(b)).totalPrice
  {
    SummaryOfPages(a);
    SummaryOfPages(b);
    SumByPermutation(a, b, PerPageCount);
    SumByPermutation(a, b, TotalPrice);
  }

  /** The request body's fields; an absent field takes its default. */
  datatype ParseRequest = ParseRequest(
    url: Option<string>, startPage: Option<int>, endPage: Option<int>, threads: Option<int>)

  const DefaultUrl: string := "https://dental-first.ru/catalog"

  function RequestUrl(req: ParseRequest): string { req.url.GetOr(DefaultUrl) }
  function StartPage(req: ParseRequest): int { req.startPage.GetOr(1) }
  function EndPage(req: ParseRequest): int { req.endPage.GetOr(3) }

  function RequestPages(req: ParseRequest): seq<string> {
    PageUrls(RequestUrl(req), StartPage(req), EndPage(req))
  }

  /** `pages_parsed`: "start-end". */
  function PagesParsed(req: ParseRequest): string {
    IntToString(StartPage(req)) + "-" + IntToString(EndPage(req))
  }
}
