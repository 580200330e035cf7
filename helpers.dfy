/**
 * The pure helpers of the storefront: language fallback, cart sums, text
 * truncation, image-url sizing, phone and e-mail checks, phone formatting and
 * the product filter. (Sorting lives in module Sorting.)
 */
module Helpers {
  import opened Wrappers
  import opened Entities
  import opened JsBuiltins

  // ---------------------------------------------------------------------------
  // Language fallback
  // ---------------------------------------------------------------------------

  /**
   * `getText`: the text in `language` if it is non-empty, else the Thai text,
   * else the English text, else `''`.
   */
  function GetText(textObj: Text, language: string): (r: string)
    ensures textObj.At(language) != "" ==> r == textObj.At(language)
    ensures textObj.At(language) == "" && textObj.th != "" ==> r == textObj.th
    ensures textObj.At(language) == "" && textObj.th == "" ==> r == textObj.en
    ensures r == "" <==> textObj.At(language) == "" && textObj.th == "" && textObj.en == ""
  {
    if textObj.At(language) != "" then textObj.At(language)
    else if textObj.th != "" then textObj.th
    else textObj.en
  }

  /** A language without an entry of its own reads exactly like Thai. */
  lemma GetTextUnknownLanguageIsThai(textObj: Text, language: string)
    requires language != "th" && language != "en"
    ensures GetText(textObj, language) == GetText(textObj, "th")
  {
  }

  // ---------------------------------------------------------------------------
  // Cart sums
  // ---------------------------------------------------------------------------

  function LineTotal(item: CartItem): int {
    item.price * item.quantity
  }

  predicate NonNegativeLines(items: seq<CartItem>) {
    forall i :: 0 <= i < |items| ==> items[i].price >= 0 && items[i].quantity >= 0
  }

  /** `calculateCartTotal`: the left-to-right `reduce` of price × quantity from 0. */
  function CalculateCartTotal(items: seq<CartItem>): (r: int)
    ensures NonNegativeLines(items) ==> r >= 0
  {
    if items == [] then 0
    else CalculateCartTotal(items[..|items| - 1]) + LineTotal(items[|items| - 1])
  }

  /** `calculateCartItemCount`: the left-to-right `reduce` of the quantities from 0. */
  function CalculateCartItemCount(items: seq<CartItem>): (r: int)
    ensures NonNegativeLines(items) ==> r >= 0
  {
    if items == [] then 0
    else CalculateCartItemCount(items[..|items| - 1]) + items[|items| - 1].quantity
  }

  /** Both sums split over a concatenation of line lists. */
  lemma {:induction false} CartSumsAppend(a: seq<CartItem>, b: seq<CartItem>)
    ensures CalculateCartTotal(a + b) == CalculateCartTotal(a) + CalculateCartTotal(b)
    ensures CalculateCartItemCount(a + b) == CalculateCartItemCount(a) + CalculateCartItemCount(b)
    decreases |b|
  {
    if b == [] {
      assert a + b == a;
    } else {
      var b' := b[..|b| - 1];
      assert (a + b)[..|a + b| - 1] == a + b';
      assert (a + b)[|a + b| - 1] == b[|b| - 1];
      CartSumsAppend(a, b');
    }
  }

  /** The sums of a single line. */
  lemma CartSumsSingle(x: CartItem)
    ensures CalculateCartTotal([x]) == LineTotal(x)
    ensures CalculateCartItemCount([x]) == x.quantity
  {
    assert [x][..0] == [];
  }

  /** Replacing one line changes each sum by exactly the difference of that line. */
  lemma CartSumsReplace(items: seq<CartItem>, k: nat, x: CartItem)
    requires k < |items|
    ensures CalculateCartTotal(items[k := x])
         == CalculateCartTotal(items) - LineTotal(items[k]) + LineTotal(x)
    ensures CalculateCartItemCount(items[k := x])
         == CalculateCartItemCount(items) - items[k].quantity + x.quantity
  {
    var pre, post := items[..k], items[k + 1..];
    assert items == pre + [items[k]] + post;
    assert items[k := x] == pre + [x] + post;
    CartSumsAppend(pre + [items[k]], post);
    CartSumsAppend(pre, [items[k]]);
    CartSumsAppend(pre + [x], post);
    CartSumsAppend(pre, [x]);
    CartSumsSingle(items[k]);
    CartSumsSingle(x);
  }

  // ---------------------------------------------------------------------------
  // Truncation
  // ---------------------------------------------------------------------------

  /**
   * `truncateText`: the text itself when it fits, else its first `maxLength`
   * characters followed by `'...'` (`substr` treats a negative length as 0).
   */
  function TruncateText(text: string, maxLength: int): (r: string)
    ensures |text| <= maxLength ==> r == text
    ensures |text| > maxLength ==>
      var kept := if maxLength < 0 then 0 else maxLength;
      |r| == kept + 3 && r[..kept] == text[..kept] && r[kept..] == "..."
  {
    if |text| <= maxLength then text
    else (if maxLength < 0 then "" else text[..maxLength]) + "..."
  }

  /** Truncating an already truncated text changes nothing. */
  lemma TruncateTextIdempotent(text: string, maxLength: int)
    ensures TruncateText(TruncateText(text, maxLength), maxLength) == TruncateText(text, maxLength)
  {
    var once := TruncateText(text, maxLength);
    if |text| > maxLength && |once| > maxLength {
      var kept := if maxLength < 0 then 0 else maxLength;
      assert once[..kept] == text[..kept];
    }
  }

  // ---------------------------------------------------------------------------
  // Image urls
  // ---------------------------------------------------------------------------

  /** `sizeMap[size]` in a template literal: an unknown size prints as `undefined`. */
  function SizeParam(size: string): string {
    if size == "small" then "w=200"
    else if size == "medium" then "w=400"
    else if size == "large" then "w=800"
    else "undefined"
  }

  /** `getImageUrl`: asks the image host for a width, on Unsplash urls only. */
  function GetImageUrl(url: string, size: string): (r: string)
    ensures |url| <= |r| && r[..|url|] == url
    ensures r == url <==> url == "" || !Includes(url, "unsplash.com")
  {
    if url == "" then ""
    else if Includes(url, "unsplash.com") then
      if Includes(url, "?") then url + "&" + SizeParam(size) else url + "?" + SizeParam(size)
    else url
  }

  /**
   * An Unsplash url gets exactly one parameter appended, joined with `&` when it
   * already has a query and with `?` otherwise; the result is still an Unsplash
   * url and always has a query. Every other url is returned unchanged.
   */
  lemma {:induction false} ImageUrlAppendsWidth(url: string, size: string)
    ensures url == "" ==> GetImageUrl(url, size) == ""
    ensures url != "" && !Includes(url, "unsplash.com") ==> GetImageUrl(url, size) == url
    ensures url != "" && Includes(url, "unsplash.com") ==>
      var r := GetImageUrl(url, size);
      && r[..|url|] == url
      && r[|url|] == (if Includes(url, "?") then '&' else '?')
      && r[|url| + 1..] == SizeParam(size)
      && Includes(r, "unsplash.com")
      && Includes(r, "?")
  {
    if url != "" && Includes(url, "unsplash.com") {
      var r := GetImageUrl(url, size);
      var sep := if Includes(url, "?") then "&" else "?";
      assert r == url + sep + SizeParam(size);
      IncludesExtended(url, sep + SizeParam(size), "unsplash.com");
      assert url + sep + SizeParam(size) == url + (sep + SizeParam(size));
      if Includes(url, "?") {
        IncludesExtended(url, sep + SizeParam(size), "?");
      } else {
        assert OccursAt(r, "?", |url|);
      }
    }
  }

  /** Sizing an Unsplash url twice appends a second width with `&`: the rewrite is not idempotent. */
  lemma ImageUrlTwice(url: string, first: string, second: string)
    requires url != "" && Includes(url, "unsplash.com")
    ensures GetImageUrl(GetImageUrl(url, first), second)
         == GetImageUrl(url, first) + "&" + SizeParam(second)
  {
    ImageUrlAppendsWidth(url, first);
  }

  // ---------------------------------------------------------------------------
  // Thai phone numbers
  // ---------------------------------------------------------------------------

  /** The characters `/[-\s]/` matches. */
  predicate IsSeparator(c: char) {
    c == '-' || IsWhitespace(c)
  }

  /** `phone.replace(/[-\s]/g, '')`. */
  function RemoveSeparators(phone: string): string {
    Filter(phone, c => !IsSeparator(c))
  }

  predicate IsAsciiDigit(c: char) {
    '0' <= c <= '9'
  }

  predicate AllDigits(s: string) {
    forall k :: 0 <= k < |s| ==> IsAsciiDigit(s[k])
  }

  /** The regular expression `/^(\+66|0)[0-9]{8,9}$/`. */
  predicate MatchesThaiPhone(s: string) {
    if |s| >= 3 && s[..3] == "+66" then 8 <= |s| - 3 <= 9 && AllDigits(s[3..])
    else |s| >= 1 && s[0] == '0' && 8 <= |s| - 1 <= 9 && AllDigits(s[1..])
  }

  /** `s` is `+66` or `0` followed by the digit run `d` of length eight or nine. */
  ghost predicate PhoneSplit(s: string, d: string) {
    AllDigits(d) && 8 <= |d| <= 9 && (s == "+66" + d || s == "0" + d)
  }

  /**
   * `isValidThaiPhone`: after deleting dashes and white space, the number is `+66`
   * or `0` followed by exactly eight or nine digits.
   */
  function IsValidThaiPhone(phone: string): (r: bool)
    ensures r <==> exists d :: PhoneSplit(RemoveSeparators(phone), d)
  {
    var s := RemoveSeparators(phone);
    var r := MatchesThaiPhone(s);
    assert r ==> (if s[..3] == "+66" then PhoneSplit(s, s[3..]) else PhoneSplit(s, s[1..]));
    assert (exists d :: PhoneSplit(s, d)) ==> r by {
      if exists d :: PhoneSplit(s, d) {
        var d :| PhoneSplit(s, d);
        if s == "+66" + d {
          assert s[..3] == "+66" && s[3..] == d;
        } else {
          assert s[..3] != "+66" by { assert s[0] == '0'; }
          assert s[1..] == d;
        }
      }
    }
    r
  }

  /** A valid number is 9 to 12 characters long once the separators are gone. */
  lemma ValidThaiPhoneLength(phone: string)
    requires IsValidThaiPhone(phone)
    ensures 9 <= |RemoveSeparators(phone)| <= 12
  {
  }

  /** Inserting a dash or a white-space character anywhere never changes validity. */
  lemma ThaiPhoneIgnoresSeparator(before: string, c: char, after: string)
    requires IsSeparator(c)
    ensures IsValidThaiPhone(before + [c] + after) == IsValidThaiPhone(before + after)
  {
    var keep := (x: char) => !IsSeparator(x);
    FilterAppend(before + [c], after, keep);
    FilterAppend(before, [c], keep);
    FilterAppend(before, after, keep);
    assert Filter([c], keep) == [];
    assert RemoveSeparators(before + [c] + after) == RemoveSeparators(before + after);
  }

  /** `phone.replace(/\D/g, '')`: the ASCII digits of `phone`, in order. */
  function Digits(phone: string): string {
    Filter(phone, IsAsciiDigit)
  }

  /**
   * `formatThaiPhone`: groups the digits as `+66 xx xxx x…` when they start with
   * `66`, as `0xx xxx x…` when they start with `0`, and otherwise returns the
   * input untouched.
   */
  function FormatThaiPhone(phone: string): string {
    var cleaned := Digits(phone);
    if |cleaned| >= 2 && cleaned[..2] == "66" then
      "+66 " + Slice(cleaned, 2, 4) + " " + Slice(cleaned, 4, 7) + " " + SliceFrom(cleaned, 7)
    else if |cleaned| >= 1 && cleaned[0] == '0' then
      Slice(cleaned, 0, 3) + " " + Slice(cleaned, 3, 6) + " " + SliceFrom(cleaned, 6)
    else phone
  }

  /** Formatting only adds punctuation: the digits of the result are the digits of the input. */
  lemma FormatThaiPhoneKeepsDigits(phone: string)
    ensures Digits(FormatThaiPhone(phone)) == Digits(phone)
  {
    var cleaned := Digits(phone);
    FilterMembers(phone, IsAsciiDigit);
    FilterKeepsAll(cleaned, IsAsciiDigit);
    if |cleaned| >= 2 && cleaned[..2] == "66" {
      FormatInternationalKeepsDigits(cleaned);
    } else if |cleaned| >= 1 && cleaned[0] == '0' {
      FormatDomesticKeepsDigits(cleaned);
    }
  }

  /** Only ASCII digits, `+` and spaces. */
  predicate PhoneChars(s: string) {
    forall ch :: ch in s ==> IsAsciiDigit(ch) || ch == '+' || ch == ' '
  }

  /**
   * The shape of the formatted number: with a leading `66`, `+66 ` then the
   * digits after it in groups of two, three and the rest, separated by single
   * spaces; with a leading `0`, the digits in groups of three, three and the
   * rest. Both results hold only digits, `+` and spaces. Any other input comes
   * back unchanged.
   */
  lemma FormatThaiPhoneShape(phone: string)
    ensures var cleaned := Digits(phone);
      var r := FormatThaiPhone(phone);
      if |cleaned| >= 2 && cleaned[..2] == "66" then
        && |r| == |cleaned| + 4 && r[..4] == "+66 " && PhoneChars(r)
        && (|cleaned| >= 7 ==>
              r[4..6] == cleaned[2..4] && r[6] == ' ' && r[7..10] == cleaned[4..7] && r[10] == ' '
              && r[11..] == cleaned[7..])
      else if |cleaned| >= 1 && cleaned[0] == '0' then
        && |r| == |cleaned| + 2 && r[0] == '0' && PhoneChars(r)
        && (|cleaned| >= 6 ==>
              r[..3] == cleaned[..3] && r[3] == ' ' && r[4..7] == cleaned[3..6] && r[7] == ' '
              && r[8..] == cleaned[6..])
      else r == phone
  {
    var cleaned := Digits(phone);
    FilterMembers(phone, IsAsciiDigit);
    if |cleaned| >= 2 && cleaned[..2] == "66" {
      InternationalShape(cleaned);
    } else if |cleaned| >= 1 && cleaned[0] == '0' {
      DomesticShape(cleaned);
    }
  }

  lemma InternationalShape(cleaned: string)
    requires forall ch :: ch in cleaned ==> IsAsciiDigit(ch)
    requires |cleaned| >= 2 && cleaned[..2] == "66"
    ensures var r := "+66 " + Slice(cleaned, 2, 4) + " " + Slice(cleaned, 4, 7) + " " + SliceFrom(cleaned, 7);
      && |r| == |cleaned| + 4 && r[..4] == "+66 " && PhoneChars(r)
      && (|cleaned| >= 7 ==>
            r[4..6] == cleaned[2..4] && r[6] == ' ' && r[7..10] == cleaned[4..7] && r[10] == ' '
            && r[11..] == cleaned[7..])
  {
    var a, b, c := Slice(cleaned, 2, 4), Slice(cleaned, 4, 7), SliceFrom(cleaned, 7);
    SliceSplit(cleaned, 2, 4);
    SliceSplit(cleaned, 4, 7);
    assert a + b + c == cleaned[2..];
    forall ch | ch in a + b + c ensures IsAsciiDigit(ch) {
      assert ch in cleaned[2..];
    }
    GroupLayout("+66 ", a, b, c);
    if |cleaned| >= 7 {
      assert a == cleaned[2..4] && b == cleaned[4..7] && c == cleaned[7..];
    }
  }

  lemma DomesticShape(cleaned: string)
    requires forall ch :: ch in cleaned ==> IsAsciiDigit(ch)
    requires |cleaned| >= 1 && cleaned[0] == '0'
    ensures var r := Slice(cleaned, 0, 3) + " " + Slice(cleaned, 3, 6) + " " + SliceFrom(cleaned, 6);
      && |r| == |cleaned| + 2 && r[0] == '0' && PhoneChars(r)
      && (|cleaned| >= 6 ==>
            r[..3] == cleaned[..3] && r[3] == ' ' && r[4..7] == cleaned[3..6] && r[7] == ' '
            && r[8..] == cleaned[6..])
  {
    var a, b, c := Slice(cleaned, 0, 3), Slice(cleaned, 3, 6), SliceFrom(cleaned, 6);
    SliceSplit(cleaned, 0, 3);
    SliceSplit(cleaned, 3, 6);
    assert a + b + c == cleaned;
    forall ch | ch in a + b + c ensures IsAsciiDigit(ch) {
    }
    GroupLayout("", a, b, c);
    assert "" + a == a;
    assert a[0] == '0';
    if |cleaned| >= 6 {
      assert a == cleaned[..3] && b == cleaned[3..6] && c == cleaned[6..];
    }
  }

  /** Where the three groups and the two spaces sit in `p + a + " " + b + " " + c`. */
  lemma GroupLayout(p: string, a: string, b: string, c: string)
    ensures var r := p + a + " " + b + " " + c;
      var i := |p| + |a|;
      var j := i + 1 + |b|;
      && |r| == |p| + |a| + |b| + |c| + 2
      && r[..|p|] == p && r[|p|..i] == a && r[i] == ' ' && r[i + 1..j] == b && r[j] == ' ' && r[j + 1..] == c
      && forall ch :: ch in r ==> ch in p || ch in a || ch in b || ch in c || ch == ' '
  {
    var r := p + a + " " + b + " " + c;
    var front := p + a + " ";
    var back := b + " " + c;
    assert r == front + back;
    assert front[..|p|] == p && front[|p|..|p| + |a|] == a;
  }

  lemma FormatInternationalKeepsDigits(cleaned: string)
    requires cleaned == Digits(cleaned) && |cleaned| >= 2 && cleaned[..2] == "66"
    ensures Digits("+66 " + Slice(cleaned, 2, 4) + " " + Slice(cleaned, 4, 7) + " " + SliceFrom(cleaned, 7))
         == cleaned
  {
    var a, b, c := Slice(cleaned, 2, 4), Slice(cleaned, 4, 7), SliceFrom(cleaned, 7);
    SliceSplit(cleaned, 2, 4);
    SliceSplit(cleaned, 4, 7);
    var rest := cleaned[2..];
    assert a + b + c == rest;
    DigitsOfParts("+66 ", a, b, c);
    DigitsOfLiterals();
    assert cleaned == "66" + rest;
    FilterAppend("66", rest, IsAsciiDigit);
  }

  lemma FormatDomesticKeepsDigits(cleaned: string)
    requires cleaned == Digits(cleaned) && |cleaned| >= 1 && cleaned[0] == '0'
    ensures Digits(Slice(cleaned, 0, 3) + " " + Slice(cleaned, 3, 6) + " " + SliceFrom(cleaned, 6))
         == cleaned
  {
    var a, b, c := Slice(cleaned, 0, 3), Slice(cleaned, 3, 6), SliceFrom(cleaned, 6);
    SliceSplit(cleaned, 0, 3);
    SliceSplit(cleaned, 3, 6);
    assert a + b + c == cleaned;
    DigitsOfParts("", a, b, c);
    DigitsOfLiterals();
    assert "" + a == a;
  }

  /** The digits of `p + a + " " + b + " " + c` are those of `p` then those of `a + b + c`. */
  lemma DigitsOfParts(p: string, a: string, b: string, c: string)
    ensures Digits(p + a + " " + b + " " + c) == Digits(p) + Digits(a + b + c)
  {
    DigitsSkipSpace(p + a + " " + b, c);
    assert p + a + " " + b + c == (p + a) + " " + (b + c);
    DigitsSkipSpace(p + a, b + c);
    assert (p + a) + (b + c) == p + (a + b + c);
    FilterAppend(p, a + b + c, IsAsciiDigit);
  }

  /** A space contributes no digit. */
  lemma DigitsSkipSpace(x: string, y: string)
    ensures Digits(x + " " + y) == Digits(x + y)
  {
    DigitsOfLiterals();
    FilterAppend(x + " ", y, IsAsciiDigit);
    FilterAppend(x, " ", IsAsciiDigit);
    FilterAppend(x, y, IsAsciiDigit);
  }

  lemma DigitsOfLiterals()
    ensures Digits("") == "" && Digits(" ") == "" && Digits("+66 ") == "66" && Digits("66") == "66"
  {
    assert " "[1..] == "";
    assert "+66 "[1..] == "66 ";
    assert "66 "[1..] == "6 ";
    assert "6 "[1..] == " ";
    assert "66"[1..] == "6";
    assert "6"[1..] == "";
  }

  // ---------------------------------------------------------------------------
  // E-mail addresses
  // ---------------------------------------------------------------------------

  /** The class `[^\s@]`. */
  predicate IsAddressChar(c: char) {
    !IsWhitespace(c) && c != '@'
  }

  predicate AllAddressChars(s: string) {
    forall k :: 0 <= k < |s| ==> IsAddressChar(s[k])
  }

  /**
   * `/^[^\s@]+@[^\s@]+\.[^\s@]+$/` matches `s` with its `@` at index `at` and
   * the dot before the last group at index `dot`.
   */
  ghost predicate EmailSplit(s: string, at: int, dot: int) {
    && 0 < at && at + 1 < dot && dot + 1 < |s|
    && s[at] == '@' && s[dot] == '.'
    && AllAddressChars(s[..at]) && AllAddressChars(s[at + 1..dot]) && AllAddressChars(s[dot + 1..])
  }

  /** The index of the first `c` in `s`, or -1 (`s.indexOf(c)`). */
  function IndexOf(s: string, c: char): (r: int)
    ensures -1 <= r < |s|
    ensures r == -1 <==> c !in s
    ensures r >= 0 ==> s[r] == c && c !in s[..r]
  {
    if s == [] then -1
    else if s[0] == c then 0
    else
      var k := IndexOf(s[1..], c);
      if k < 0 then -1
      else (assert s[..k + 1] == [s[0]] + s[1..][..k]; k + 1)
  }

  /** `isValidEmail`: the address has the shape `local@domain.tld`, as the regular expression demands. */
  function IsValidEmail(email: string): (r: bool)
    ensures r <==> exists at, dot :: EmailSplit(email, at, dot)
  {
    var at := IndexOf(email, '@');
    var r := 0 < at && AllAddressChars(email[..at]) && AllAddressChars(email[at + 1..])
             && exists dot | at + 1 < dot < |email| - 1 :: email[dot] == '.';
    assert r ==> exists at', dot :: EmailSplit(email, at', dot) by {
      if r {
        var dot :| at + 1 < dot < |email| - 1 && email[dot] == '.';
        var rest := email[at + 1..];
        assert email[at + 1..dot] == rest[..dot - at - 1];
        assert email[dot + 1..] == rest[dot - at..];
        assert EmailSplit(email, at, dot);
      }
    }
    assert (exists at', dot :: EmailSplit(email, at', dot)) ==> r by {
      if exists at', dot :: EmailSplit(email, at', dot) {
        var at', dot :| EmailSplit(email, at', dot);
        assert '@' !in email[..at'] by {
          forall k | 0 <= k < at' ensures email[..at'][k] != '@' {
            assert IsAddressChar(email[..at'][k]);
          }
        }
        assert email[at'] == '@';
        assert at == at';
        forall k | at + 1 <= k < |email| ensures IsAddressChar(email[k]) {
          if k < dot {
            assert email[k] == email[at + 1..dot][k - at - 1];
          } else if k > dot {
            assert email[k] == email[dot + 1..][k - dot - 1];
          }
        }
        assert email[dot] == '.';
      }
    }
    r
  }

  // ---------------------------------------------------------------------------
  // Product filter
  // ---------------------------------------------------------------------------

  predicate CategoryAdmits(filters: Filters, p: Product) {
    filters.category == "" || filters.category == "all" || p.category == filters.category
  }

  predicate StockAdmits(filters: Filters, p: Product) {
    !filters.inStock || p.inStock
  }

  predicate PriceAdmits(filters: Filters, p: Product) {
    match filters.priceRange
    case None => true
    case Some(range) => range.min <= p.price <= range.max
  }

  predicate SizesAdmit(filters: Filters, p: Product) {
    filters.sizes == [] || exists s :: s in p.sizes && s in filters.sizes
  }

  /** A product passes every filter that is switched on. */
  predicate Admits(filters: Filters, p: Product) {
    CategoryAdmits(filters, p) && StockAdmits(filters, p) && PriceAdmits(filters, p) && SizesAdmit(filters, p)
  }

  /** `Admits` as the test handed to `filter`. */
  function AdmitsTest(filters: Filters): Product -> bool {
    p => Admits(filters, p)
  }

  /** The filters of the first `stage` stages of `filterProducts`. */
  predicate AdmitsUpTo(filters: Filters, p: Product, stage: nat) {
    && (stage >= 1 ==> CategoryAdmits(filters, p))
    && (stage >= 2 ==> StockAdmits(filters, p))
    && (stage >= 3 ==> PriceAdmits(filters, p))
    && (stage >= 4 ==> SizesAdmit(filters, p))
  }

  /**
   * `filterProducts`: narrows a copy of the list stage by stage (category, stock,
   * price range, sizes). The result is the order-preserving subsequence of the
   * products that pass every active filter.
   */
  method FilterProducts(products: seq<Product>, filters: Filters) returns (filtered: seq<Product>)
    ensures filtered == Filter(products, AdmitsTest(filters))
    ensures IsSubsequence(filtered, products)
    ensures forall p :: p in filtered <==> p in products && Admits(filters, p)
  {
    ghost var upTo0 := (p: Product) => AdmitsUpTo(filters, p, 0);
    ghost var upTo1 := (p: Product) => AdmitsUpTo(filters, p, 1);
    ghost var upTo2 := (p: Product) => AdmitsUpTo(filters, p, 2);
    ghost var upTo3 := (p: Product) => AdmitsUpTo(filters, p, 3);
    ghost var upTo4 := (p: Product) => AdmitsUpTo(filters, p, 4);

    filtered := products;
    FilterKeepsAll(products, upTo0);

    if filters.category != "" && filters.category != "all" {
      var keep := (p: Product) => p.category == filters.category;
      FilterTwice(products, upTo0, keep, upTo1);
      filtered := Filter(filtered, keep);
    } else {
      FilterCongruent(products, upTo0, upTo1);
    }
    assert filtered == Filter(products, upTo1);

    if filters.inStock {
      var keep := (p: Product) => p.inStock;
      FilterTwice(products, upTo1, keep, upTo2);
      filtered := Filter(filtered, keep);
    } else {
      FilterCongruent(products, upTo1, upTo2);
    }
    assert filtered == Filter(products, upTo2);

    if filters.priceRange.Some? {
      var range := filters.priceRange.value;
      var keep := (p: Product) => p.price >= range.min && p.price <= range.max;
      FilterTwice(products, upTo2, keep, upTo3);
      filtered := Filter(filtered, keep);
    } else {
      FilterCongruent(products, upTo2, upTo3);
    }
    assert filtered == Filter(products, upTo3);

    if |filters.sizes| > 0 {
      var keep := (p: Product) => exists s :: s in p.sizes && s in filters.sizes;
      FilterTwice(products, upTo3, keep, upTo4);
      filtered := Filter(filtered, keep);
    } else {
      FilterCongruent(products, upTo3, upTo4);
    }
    assert filtered == Filter(products, upTo4);

    FilterCongruent(products, upTo4, AdmitsTest(filters));
    AdmittedProducts(products, filters);
  }

  /** The products `filter` keeps under `Admits`, in their original order. */
  lemma AdmittedProducts(products: seq<Product>, filters: Filters)
    ensures IsSubsequence(Filter(products, AdmitsTest(filters)), products)
    ensures forall p :: p in Filter(products, AdmitsTest(filters)) <==> p in products && Admits(filters, p)
  {
    FilterIsSubsequence(products, AdmitsTest(filters));
    FilterMembers(products, AdmitsTest(filters));
  }
}
