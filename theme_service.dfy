/** The query of the theme list request: which parameters are sent, and how
    their values are written. */
module ThemeQuery {
  import opened Wrappers

  // ---------------------------------------------------------------------
  // Decimal text of an integer, as string interpolation writes it

  predicate IsDigit(c: char) {
    '0' <= c <= '9'
  }

  predicate AllDigits(s: string) {
    forall k :: 0 <= k < |s| ==> IsDigit(s[k])
  }

  function DigitChar(d: nat): (c: char)
    requires d < 10
    ensures IsDigit(c) && c as int - '0' as int == d
  {
    ('0' as int + d) as char
  }

  /** The decimal digits of `n`, without leading zeros. */
  function NatString(n: nat): (s: string)
    ensures s != [] && AllDigits(s)
    ensures |s| > 1 ==> s[0] != '0'
    decreases n
  {
    if n < 10 then [DigitChar(n)]
    else
      var s := NatString(n / 10) + [DigitChar(n % 10)];
      assert s[0] == NatString(n / 10)[0];
      s
  }

  /** The text of an integer: a minus sign before the digits of a negative
      one. */
  function DecimalString(n: int): (s: string)
    ensures s != []
    ensures n >= 0 ==> AllDigits(s)
    ensures n < 0 ==> s[0] == '-' && AllDigits(s[1..])
  {
    if n < 0 then "-" + NatString(-n) else NatString(n)
  }

  /** The number a run of decimal digits spells. */
  function DigitsValue(s: string): nat
    requires AllDigits(s)
    decreases |s|
  {
    if s == [] then 0 else DigitsValue(s[..|s| - 1]) * 10 + (s[|s| - 1] as int - '0' as int)
  }

  /** Reads an integer back from its text: optional minus sign, then at
      least one digit and nothing else. */
  function ParseDecimal(s: string): Option<int> {
    if |s| > 1 && s[0] == '-' && AllDigits(s[1..]) then Some(-(DigitsValue(s[1..]) as int))
    else if s != [] && AllDigits(s) then Some(DigitsValue(s))
    else None
  }

  lemma {:induction false} NatStringValue(n: nat)
    ensures DigitsValue(NatString(n)) == n
    decreases n
  {
    var s := NatString(n);
    if n < 10 {
      assert s[..|s| - 1] == [];
    } else {
      NatStringValue(n / 10);
      assert s[..|s| - 1] == NatString(n / 10);
    }
  }

  /** Reading the text of an integer gives the integer back, so different
      integers are never written alike. */
  lemma DecimalRoundTrip(n: int)
    ensures ParseDecimal(DecimalString(n)) == Some(n)
  {
    if n < 0 {
      var s := DecimalString(n);
      assert s[1..] == NatString(-n);
      NatStringValue(-n);
    } else {
      NatStringValue(n);
      assert DecimalString(n)[0] != '-';
    }
  }

  lemma DecimalStringInjective(m: int, n: int)
    requires DecimalString(m) == DecimalString(n)
    ensures m == n
  {
    DecimalRoundTrip(m);
    DecimalRoundTrip(n);
  }

  // ---------------------------------------------------------------------
  // The query parameters

  /** Every key the theme list query can carry. */
  const QueryKeys: set<string> := {"page", "per_page", "search", "is_paid"}

  /** Builds the query of a theme list request: the page and the page size
      always, the search text and the paid filter only when given. */
  method GetThemeListQuery(page: int := 1, perPage: int := 20, search: Option<string> := None,
                           isPaid: Option<bool> := None)
    returns (queryParams: map<string, string>)
    ensures queryParams.Keys <= QueryKeys
    ensures "page" in queryParams && queryParams["page"] == DecimalString(page)
    ensures "per_page" in queryParams && queryParams["per_page"] == DecimalString(perPage)
    ensures "search" in queryParams <==> search.Some?
    ensures search.Some? ==> queryParams["search"] == search.value
    ensures "is_paid" in queryParams <==> isPaid.Some?
    ensures isPaid.Some? ==> queryParams["is_paid"] == (if isPaid.value then "true" else "false")
    ensures 2 <= |queryParams| <= 4
  {
    queryParams := map["page" := DecimalString(page), "per_page" := DecimalString(perPage)];
    if search.Some? {
      queryParams := queryParams["search" := search.value];
    }
    if isPaid.Some? {
      queryParams := queryParams["is_paid" := if isPaid.value then "true" else "false"];
    }
    assert {"page", "per_page"} <= queryParams.Keys;
    assert |{"page", "per_page"}| == 2;
    SubsetSize({"page", "per_page"}, queryParams.Keys);
    SubsetSize(queryParams.Keys, QueryKeys);
  }

  lemma SubsetSize(a: set<string>, b: set<string>)
    requires a <= b
    ensures |a| <= |b|
  {
    assert b == a + (b - a);
  }

  /** With every argument left at its default, the query asks for the first
      page of twenty themes and nothing else. */
  method GetDefaultThemeListQuery() returns (queryParams: map<string, string>)
    ensures queryParams == map["page" := "1", "per_page" := "20"]
  {
    queryParams := GetThemeListQuery();
    assert DecimalString(1) == "1";
    assert DecimalString(20) == "20" by {
      assert NatString(2) == "2" && NatString(0) == "0";
    }
  }
}
