/** The Redis keys of the product service. */
module CacheKeys {
  import opened ProductDb

  // ----- Numbers as text -----

  function Digit(d: nat): char
    requires d < 10
  {
    ('0' as int + d) as char
  }

  function Digits(n: nat): string {
    if n < 10 then [Digit(n)] else Digits(n / 10) + [Digit(n % 10)]
  }

  /** What `%d` prints. */
  function Decimal(n: int): string {
    if n < 0 then "-" + Digits(-n) else Digits(n)
  }

  lemma {:induction false} DigitsInjective(m: nat, n: nat)
    requires Digits(m) == Digits(n)
    ensures m == n
    decreases m
  {
    DigitsNonEmpty(m / 10);
    DigitsNonEmpty(n / 10);
    var a, b := Digits(m), Digits(n);
    assert a[|a| - 1] == Digit(m % 10) && b[|b| - 1] == Digit(n % 10);
    if m >= 10 && n >= 10 {
      assert a[..|a| - 1] == Digits(m / 10) && b[..|b| - 1] == Digits(n / 10);
      DigitsInjective(m / 10, n / 10);
    }
  }

  lemma {:induction false} DigitsNonEmpty(n: nat)
    ensures |Digits(n)| >= 1
  {
  }

  lemma {:induction false} DigitsOnly(n: nat, k: nat)
    requires k < |Digits(n)|
    ensures '0' <= Digits(n)[k] <= '9'
  {
    if n >= 10 && k < |Digits(n / 10)| {
      DigitsOnly(n / 10, k);
    }
  }

  lemma {:induction false} DecimalInjective(m: int, n: int)
    requires Decimal(m) == Decimal(n)
    ensures m == n
  {
    DigitsNonEmpty(if m < 0 then -m else m);
    DigitsNonEmpty(if n < 0 then -n else n);
    DigitsOnly(if m < 0 then -m else m, 0);
    DigitsOnly(if n < 0 then -n else n, 0);
    assert (m < 0) == (Decimal(m)[0] == '-') && (n < 0) == (Decimal(n)[0] == '-');
    if m < 0 {
      assert Decimal(m)[1..] == Digits(-m) && Decimal(n)[1..] == Digits(-n);
      DigitsInjective(-m, -n);
    } else {
      DigitsInjective(m, n);
    }
  }

  lemma {:induction false} DecimalHasNoColon(n: int)
    ensures ':' !in Decimal(n)
  {
    var m := if n < 0 then -n else n;
    forall k | 0 <= k < |Digits(m)| ensures Digits(m)[k] != ':' {
      DigitsOnly(m, k);
    }
  }

  // ----- Keys -----

  const LIST_PREFIX := "products:list:"
  const PRODUCT_PREFIX := "product:"
  const HOTDEAL_PREFIX := "hotdeal:stock:"

  /** A product id stands for a UUID; its decimal text for the UUID's own. */
  function ProductKey(id: ProductId): string {
    PRODUCT_PREFIX + Digits(id)
  }

  function HotdealKey(id: ProductId): string {
    HOTDEAL_PREFIX + Digits(id)
  }

  function ListKey(limit: int, offset: int): string {
    LIST_PREFIX + Decimal(limit) + ":" + Decimal(offset)
  }

  /** What the pattern `products:list:*` matches. */
  predicate IsListKey(key: string) {
    LIST_PREFIX <= key
  }

  /** Two texts around the first colon are determined by the whole. */
  lemma {:induction false} SplitAtColon(a: string, b: string, c: string, d: string)
    requires ':' !in a && ':' !in c && a + ":" + b == c + ":" + d
    ensures a == c && b == d
  {
    var s := a + ":" + b;
    assert s[|a|] == ':' && s[|c|] == ':';
    assert s[..|a|] == a && s[..|c|] == c;
    assert s[|a| + 1..] == b && s[|c| + 1..] == d;
  }

  lemma {:induction false} PrefixCancels(p: string, a: string, b: string, c: string, d: string)
    requires p + a + ":" + b == p + c + ":" + d
    ensures a + ":" + b == c + ":" + d
  {
    assert (p + a + ":" + b)[|p|..] == a + ":" + b;
    assert (p + c + ":" + d)[|p|..] == c + ":" + d;
  }

  /** Different pages have different keys, and so have different products. */
  lemma {:induction false} ListKeyInjective(limit: int, offset: int, limit': int, offset': int)
    ensures ListKey(limit, offset) == ListKey(limit', offset') <==> limit == limit' && offset == offset'
  {
    if ListKey(limit, offset) == ListKey(limit', offset') {
      PrefixCancels(LIST_PREFIX, Decimal(limit), Decimal(offset), Decimal(limit'), Decimal(offset'));
      DecimalHasNoColon(limit);
      DecimalHasNoColon(limit');
      SplitAtColon(Decimal(limit), Decimal(offset), Decimal(limit'), Decimal(offset'));
      DecimalInjective(limit, limit');
      DecimalInjective(offset, offset');
    }
  }

  lemma {:induction false} ProductKeyInjective(id: ProductId, id': ProductId)
    ensures ProductKey(id) == ProductKey(id') <==> id == id'
  {
    if ProductKey(id) == ProductKey(id') {
      assert ProductKey(id)[|PRODUCT_PREFIX|..] == Digits(id);
      assert ProductKey(id')[|PRODUCT_PREFIX|..] == Digits(id');
      DigitsInjective(id, id');
    }
  }

  /** The list pattern matches every list key, no product key and no hot-deal counter; the three never collide. */
  lemma {:induction false} KeySpacesApart(id: ProductId, deal: ProductId, limit: int, offset: int)
    ensures IsListKey(ListKey(limit, offset)) && !IsListKey(ProductKey(id)) && !IsListKey(HotdealKey(deal))
    ensures ProductKey(id) != HotdealKey(deal)
    ensures ProductKey(id) != ListKey(limit, offset) && HotdealKey(deal) != ListKey(limit, offset)
  {
    var l, p, h := ListKey(limit, offset), ProductKey(id), HotdealKey(deal);
    assert l[..|LIST_PREFIX|] == LIST_PREFIX;
    assert l[7] == LIST_PREFIX[7] == 's' && p[7] == PRODUCT_PREFIX[7] == ':';
    assert l[0] == 'p' && p[0] == 'p' && h[0] == 'h';
  }
}
