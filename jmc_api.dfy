/** The addresses of the JMC sakura pages and forecast API, keyed by a prefecture number that
    is written with at least two digits. */
module JmcApi {
  import JsText

  /** `String(n)` for an integer. */
  function NumberString(n: int): (r: string)
    ensures |r| >= 1
    ensures n >= 0 ==> JsText.AllDigits(r) && JsText.DecimalValue(r) == n
    ensures n < 0 ==> r[0] == '-' && JsText.AllDigits(r[1..]) && JsText.DecimalValue(r[1..]) == -n
  {
    if n < 0 then "-" + JsText.NatToDecimal(-n) else JsText.NatToDecimal(n)
  }

  /** `pad2`: `String(n).padStart(2, "0")`. */
  function Pad2(n: int): (r: string)
    ensures |r| >= 2 && |r| >= |NumberString(n)|
    ensures r[|r| - |NumberString(n)|..] == NumberString(n)
    ensures forall i :: 0 <= i < |r| - |NumberString(n)| ==> r[i] == '0'
  {
    JsText.PadStart(NumberString(n), 2, '0')
  }

  /** A prefecture number from 0 to 99 becomes exactly two digits that read back as it; from 10
      on there is nothing to pad. */
  lemma Pad2TwoDigits(n: int)
    requires 0 <= n < 100
    ensures |Pad2(n)| == 2 && JsText.AllDigits(Pad2(n)) && JsText.DecimalValue(Pad2(n)) == n
    ensures n >= 10 ==> Pad2(n) == NumberString(n)
  {
    assert JsText.Pow10(2) == 100 by {
      assert JsText.Pow10(1) == 10;
    }
    JsText.ZeroPaddedNumeral(n, 2);
  }

  const PagePrefix: string := "https://s.n-kishou.co.jp/w/sp/sakura/sakura_yosou?ba="
  const ApiPrefix: string := "https://other-api-prod.n-kishou.co.jp/list-jr-points?type=sakura&filter_mode=forecast&area_mode=pref&area_code="
  const ApiSuffix: string := "&sort_code=0"

  /** `jmcPrefecturePageUrl`: the prefecture's sakura forecast page. */
  function PrefecturePageUrl(prefectureId: int): string {
    PagePrefix + Pad2(prefectureId)
  }

  /** `jmcPrefectureApiUrl` / `buildJmcPrefectureApiUrl`: the forecast list of the prefecture's
      points. */
  function PrefectureApiUrl(prefectureId: int): string {
    ApiPrefix + Pad2(prefectureId) + ApiSuffix
  }

  /** Different text of equal length between the same prefix and suffix gives different strings. */
  lemma InfixDistinct(prefix: string, x: string, y: string, suffix: string)
    requires |x| == |y| && x != y
    ensures prefix + x + suffix != prefix + y + suffix
  {
    assert (prefix + x + suffix)[|prefix|..|prefix| + |x|] == x;
    assert (prefix + y + suffix)[|prefix|..|prefix| + |y|] == y;
  }

  /** Different prefecture numbers in 0..99 are padded differently. */
  lemma Pad2Injective(a: int, b: int)
    requires 0 <= a < 100 && 0 <= b < 100 && a != b
    ensures |Pad2(a)| == |Pad2(b)| && Pad2(a) != Pad2(b)
  {
    Pad2TwoDigits(a);
    Pad2TwoDigits(b);
  }

  /** Different prefecture numbers in 0..99 give different page and API addresses. */
  lemma UrlsDistinguishPrefectures(a: int, b: int)
    requires 0 <= a < 100 && 0 <= b < 100 && a != b
    ensures PrefecturePageUrl(a) != PrefecturePageUrl(b)
    ensures PrefectureApiUrl(a) != PrefectureApiUrl(b)
  {
    Pad2Injective(a, b);
    var pa, pb := Pad2(a), Pad2(b);
    InfixDistinct(PagePrefix, pa, pb, []);
    assert PagePrefix + pa + [] == PagePrefix + pa;
    assert PagePrefix + pb + [] == PagePrefix + pb;
    InfixDistinct(ApiPrefix, pa, pb, ApiSuffix);
  }
}
