/**
 * The audit-log page: the request URL that `fetchLogs` builds from the
 * current filters, the reset of those filters, and the colour of an action tag.
 *
 * Each filter is appended as `key=value&`, in the fixed order userId, action,
 * startDate, endDate, and only when the JavaScript value is truthy: a userId
 * of 0 and an empty action are dropped like absent ones, and the two dates go
 * together, both or neither. Values are not percent-encoded.
 */
module AuditLogs {
  import opened Common

  /** The range picker's pair of ISO date strings. */
  datatype DateRange = DateRange(start: string, end: string)

  /** The page's filter state; None is `undefined`. */
  datatype Filters = Filters(userId: Option<int>, action: Option<string>, dateRange: Option<DateRange>)

  /** All filters undefined: the initial state and the state after a reset. */
  const NoFilters := Filters(None, None, None)

  /** `if (filters.userId)`: undefined and 0 are falsy. */
  predicate UserIdSet(f: Filters) {
    f.userId.Some? && f.userId.value != 0
  }

  /** `if (filters.action)`: undefined and the empty string are falsy. */
  predicate ActionSet(f: Filters) {
    f.action.Some? && f.action.value != ""
  }

  // ---------------------------------------------------------------- decimals

  predicate IsDigit(c: char) {
    '0' <= c <= '9'
  }

  predicate AllDigits(s: string) {
    forall i :: 0 <= i < |s| ==> IsDigit(s[i])
  }

  function DigitChar(d: nat): (c: char)
    requires d < 10
    ensures IsDigit(c) && c as int - '0' as int == d
  {
    ('0' as int + d) as char
  }

  /** Decimal digits of a natural number, most significant first, no leading zeros. */
  function Digits(n: nat): (s: string)
    ensures s != [] && AllDigits(s)
    ensures s[0] == '0' <==> n == 0
  {
    if n < 10 then [DigitChar(n)] else Digits(n / 10) + [DigitChar(n % 10)]
  }

  /** How `${n}` renders an integer: an optional minus sign, then its digits. */
  function Decimal(n: int): (s: string)
    ensures s != []
    ensures forall i :: 0 <= i < |s| ==> s[i] == '-' || IsDigit(s[i])
    ensures s[0] == '-' <==> n < 0
    ensures |s| > 1 ==> s[0] != '0'
    ensures n < 0 ==> |s| > 1 && s[1] != '0'
    ensures s == "0" <==> n == 0
  {
    if n < 0 then "-" + Digits(-n) else Digits(n)
  }

  /** The value of a string of decimal digits. */
  function DigitsValue(s: string): nat
    requires AllDigits(s)
  {
    if s == [] then 0 else 10 * DigitsValue(s[..|s| - 1]) + (s[|s| - 1] as int - '0' as int)
  }

  /** Reads back an integer written by Decimal. */
  function ParseDecimal(s: string): Option<int> {
    if s != [] && AllDigits(s) then Some(DigitsValue(s))
    else if |s| > 1 && s[0] == '-' && AllDigits(s[1..]) then Some(0 - DigitsValue(s[1..]) as int)
    else None
  }

  lemma {:induction false} DigitsRoundTrip(n: nat)
    ensures DigitsValue(Digits(n)) == n
  {
    if n >= 10 {
      var s := Digits(n);
      assert s[..|s| - 1] == Digits(n / 10);
      DigitsRoundTrip(n / 10);
    }
  }

  /** The userId written into the URL reads back as the same integer. */
  lemma DecimalRoundTrip(n: int)
    ensures ParseDecimal(Decimal(n)) == Some(n)
  {
    if n < 0 {
      var s := Decimal(n);
      assert s[1..] == Digits(-n);
      DigitsRoundTrip(-n);
    } else {
      DigitsRoundTrip(n);
    }
  }

  // ------------------------------------------------------------ URL building

  /** One query parameter as the page writes it: `key=value&`. */
  function Param(key: string, value: string): string {
    key + "=" + value + "&"
  }

  /** The `userId=<n>&` fragment, empty unless the userId is truthy. */
  function UserIdPart(f: Filters): (p: string)
    ensures p == "" <==> !UserIdSet(f)
    ensures p != "" ==> |p| >= 8 && p[..7] == "userId=" && p[|p| - 1] == '&'
  {
    if UserIdSet(f) then Param("userId", Decimal(f.userId.value)) else ""
  }

  /** The `action=<a>&` fragment, empty unless the action is a non-empty string. */
  function ActionPart(f: Filters): (p: string)
    ensures p == "" <==> !ActionSet(f)
    ensures p != "" ==> |p| >= 8 && p[..7] == "action=" && p[|p| - 1] == '&'
  {
    if ActionSet(f) then Param("action", f.action.value) else ""
  }

  /** The `startDate=<s>&endDate=<e>&` fragment, empty unless a range is set. */
  function DatePart(f: Filters): (p: string)
    ensures p == "" <==> f.dateRange.None?
    ensures p != "" ==> |p| >= 11 && p[..10] == "startDate=" && p[|p| - 1] == '&'
  {
    match f.dateRange
    case None => ""
    case Some(d) => Param("startDate", d.start) + Param("endDate", d.end)
  }

  /** The query string after `?` for filters `f`. */
  function QueryOf(f: Filters): (q: string)
    ensures q == "" <==> !UserIdSet(f) && !ActionSet(f) && f.dateRange.None?
  {
    UserIdPart(f) + ActionPart(f) + DatePart(f)
  }

  /** The URL `fetchLogs` requests for server base `base` and filters `f`. */
  function LogsUrl(base: string, f: Filters): (url: string)
    ensures |url| >= |base| + 6 && url[..|base| + 6] == base + "/logs?"
  {
    base + "/logs?" + QueryOf(f)
  }

  function UserIdPairs(f: Filters): seq<(string, string)> {
    if UserIdSet(f) then [("userId", Decimal(f.userId.value))] else []
  }

  function ActionPairs(f: Filters): seq<(string, string)> {
    if ActionSet(f) then [("action", f.action.value)] else []
  }

  function DatePairs(f: Filters): seq<(string, string)> {
    match f.dateRange
    case None => []
    case Some(d) => [("startDate", d.start), ("endDate", d.end)]
  }

  /** The URL is the prefix followed by the three fragments, appended one after another. */
  lemma LogsUrlParts(base: string, f: Filters)
    ensures LogsUrl(base, f) == base + "/logs?" + UserIdPart(f) + ActionPart(f) + DatePart(f)
  {
  }

  /** The parameters `f` should produce, as key/value pairs in URL order. */
  function ExpectedParams(f: Filters): seq<(string, string)> {
    UserIdPairs(f) + ActionPairs(f) + DatePairs(f)
  }

  /** The keys of a parameter list, in order. */
  function Keys(ps: seq<(string, string)>): (ks: seq<string>)
    ensures |ks| == |ps|
    ensures forall i :: 0 <= i < |ps| ==> ks[i] == ps[i].0
  {
    if ps == [] then [] else [ps[0].0] + Keys(ps[1..])
  }

  /** Where each key stands in the fixed order userId, action, startDate, endDate. */
  function KeyRank(k: string): int {
    if k == "userId" then 0
    else if k == "action" then 1
    else if k == "startDate" then 2
    else if k == "endDate" then 3
    else 4
  }

  lemma KeysAppend(a: seq<(string, string)>, b: seq<(string, string)>)
    ensures Keys(a + b) == Keys(a) + Keys(b)
  {
  }

  /** The keys the filters produce, fragment by fragment. */
  function ExpectedKeys(f: Filters): (ks: seq<string>)
    ensures ks == Keys(ExpectedParams(f))
  {
    KeysAppend(UserIdPairs(f), ActionPairs(f));
    KeysAppend(UserIdPairs(f) + ActionPairs(f), DatePairs(f));
    (if UserIdSet(f) then ["userId"] else [])
    + (if ActionSet(f) then ["action"] else [])
    + (if f.dateRange.Some? then ["startDate", "endDate"] else [])
  }

  /**
   * Which parameters the URL carries: userId exactly when it is truthy,
   * action exactly when it is a non-empty string, the two dates exactly when
   * a range is set.
   */
  lemma ExpectedParamsPresent(f: Filters)
    ensures "userId" in Keys(ExpectedParams(f)) <==> UserIdSet(f)
    ensures "action" in Keys(ExpectedParams(f)) <==> ActionSet(f)
    ensures "startDate" in Keys(ExpectedParams(f)) <==> f.dateRange.Some?
    ensures "endDate" in Keys(ExpectedParams(f)) <==> f.dateRange.Some?
  {
    var ks := ExpectedKeys(f);
    var u: seq<string> := if UserIdSet(f) then ["userId"] else [];
    var a: seq<string> := if ActionSet(f) then ["action"] else [];
    var d: seq<string> := if f.dateRange.Some? then ["startDate", "endDate"] else [];
    assert ks == u + a + d;
  }

  /** Keys whose ranks rise from each one to the next rise throughout. */
  lemma {:induction false} KeysRanked(ks: seq<string>)
    requires forall i :: 0 <= i < |ks| - 1 ==> KeyRank(ks[i]) < KeyRank(ks[i + 1])
    ensures forall i, j :: 0 <= i < j < |ks| ==> KeyRank(ks[i]) < KeyRank(ks[j])
    decreases |ks|
  {
    if |ks| > 1 {
      var rest := ks[1..];
      KeysRanked(rest);
      forall i, j | 0 <= i < j < |ks| ensures KeyRank(ks[i]) < KeyRank(ks[j]) {
        assert ks[j] == rest[j - 1];
        if i > 0 {
          assert ks[i] == rest[i - 1];
        } else if j > 1 {
          assert KeyRank(rest[0]) < KeyRank(rest[j - 1]);
        }
      }
    }
  }

  /** The parameters present always come in the order userId, action, startDate, endDate. */
  lemma ExpectedParamsOrdered(f: Filters)
    ensures forall i, j :: 0 <= i < j < |ExpectedParams(f)| ==>
      KeyRank(Keys(ExpectedParams(f))[i]) < KeyRank(Keys(ExpectedParams(f))[j])
  {
    var ks := ExpectedKeys(f);
    var d := f.dateRange.Some?;
    if UserIdSet(f) && ActionSet(f) {
      if d { KeysRanked(["userId", "action", "startDate", "endDate"]); }
      else { KeysRanked(["userId", "action"]); }
    } else if UserIdSet(f) {
      if d { KeysRanked(["userId", "startDate", "endDate"]); }
      else { KeysRanked(["userId"]); }
    } else if ActionSet(f) {
      if d { KeysRanked(["action", "startDate", "endDate"]); }
      else { KeysRanked(["action"]); }
    } else {
      if d { KeysRanked(["startDate", "endDate"]); }
      else { KeysRanked([]); }
    }
  }

  /** The URL starts with the base and `/logs?`; it ends right after `?` exactly when no filter is truthy. */
  lemma LogsUrlShape(base: string, f: Filters)
    ensures LogsUrl(base, f)[..|base| + 6] == base + "/logs?"
    ensures LogsUrl(base, f) == base + "/logs?" <==>
      !UserIdSet(f) && !ActionSet(f) && f.dateRange.None?
  {
  }

  /** Every parameter is terminated by `&`: a non-empty query ends with one. */
  lemma QueryEndsWithAmpersand(f: Filters)
    requires QueryOf(f) != ""
    ensures QueryOf(f)[|QueryOf(f)| - 1] == '&'
  {
  }

  /** After a reset the URL carries no parameter at all. */
  lemma NoFiltersUrl(base: string)
    ensures LogsUrl(base, NoFilters) == base + "/logs?"
  {
  }

  // ----------------------------------------------------- reading a query back

  /** First index of `c` in `s`, or -1. */
  function IndexOf(s: string, c: char): (r: int)
    ensures -1 <= r < |s|
    ensures r >= 0 ==> s[r] == c
    ensures forall j :: 0 <= j < |s| && (r < 0 || j < r) ==> s[j] != c
  {
    if s == [] then -1
    else if s[0] == c then 0
    else
      var k := IndexOf(s[1..], c);
      if k < 0 then -1 else k + 1
  }

  lemma IndexOfIs(s: string, c: char, k: int)
    requires -1 <= k < |s|
    requires k >= 0 ==> s[k] == c
    requires forall j :: 0 <= j < |s| && (k < 0 || j < k) ==> s[j] != c
    ensures IndexOf(s, c) == k
  {
  }

  /**
   * Splits a query made of `key=value&` parameters back into pairs: each
   * parameter runs to the next `&`, its key to its first `=`. None when a
   * parameter lacks its `&` or its `=`.
   */
  function ParseParams(q: string): Option<seq<(string, string)>>
    decreases |q|
  {
    if q == [] then Some([])
    else
      var amp := IndexOf(q, '&');
      if amp < 0 then None
      else
        var piece := q[..amp];
        var eq := IndexOf(piece, '=');
        if eq < 0 then None
        else
          match ParseParams(q[amp + 1..])
          case None => None
          case Some(rest) => Some([(piece[..eq], piece[eq + 1..])] + rest)
  }

  /** A key free of `=` and `&` and a value free of `&` read back as one pair. */
  lemma ParseParam(key: string, value: string, rest: string)
    requires '=' !in key && '&' !in key && '&' !in value
    ensures ParseParams(Param(key, value) + rest) ==
      match ParseParams(rest)
      case None => None
      case Some(ps) => Some([(key, value)] + ps)
  {
    var q := Param(key, value) + rest;
    var amp := |key| + 1 + |value|;
    assert q == key + "=" + value + "&" + rest;
    assert q[amp] == '&';
    IndexOfIs(q, '&', amp);
    var piece := q[..amp];
    assert piece == key + "=" + value;
    IndexOfIs(piece, '=', |key|);
    assert piece[..|key|] == key;
    assert piece[|key| + 1..] == value;
    assert q[amp + 1..] == rest;
  }

  /** Values the page writes verbatim stay separable when they hold no `&`. */
  predicate SeparableValues(f: Filters) {
    (f.action.Some? ==> '&' !in f.action.value)
    && (f.dateRange.Some? ==> '&' !in f.dateRange.value.start && '&' !in f.dateRange.value.end)
  }

  lemma DecimalSeparable(n: int)
    ensures '&' !in Decimal(n) && '=' !in Decimal(n)
  {
  }

  /** Prepends `ps` to a parse result; a failed parse stays failed. */
  function Prefixed(ps: seq<(string, string)>, r: Option<seq<(string, string)>>): Option<seq<(string, string)>> {
    match r
    case None => None
    case Some(qs) => Some(ps + qs)
  }

  lemma ParseUserIdPart(f: Filters, rest: string)
    ensures ParseParams(UserIdPart(f) + rest) == Prefixed(UserIdPairs(f), ParseParams(rest))
  {
    if UserIdSet(f) {
      DecimalSeparable(f.userId.value);
      ParseParam("userId", Decimal(f.userId.value), rest);
    } else {
      assert UserIdPart(f) + rest == rest;
      match ParseParams(rest)
      case None =>
      case Some(qs) => assert UserIdPairs(f) + qs == qs;
    }
  }

  lemma ParseActionPart(f: Filters, rest: string)
    requires SeparableValues(f)
    ensures ParseParams(ActionPart(f) + rest) == Prefixed(ActionPairs(f), ParseParams(rest))
  {
    if ActionSet(f) {
      ParseParam("action", f.action.value, rest);
    } else {
      assert ActionPart(f) + rest == rest;
      match ParseParams(rest)
      case None =>
      case Some(qs) => assert ActionPairs(f) + qs == qs;
    }
  }

  lemma ParseDatePart(f: Filters)
    requires SeparableValues(f)
    ensures ParseParams(DatePart(f)) == Some(DatePairs(f))
  {
    if f.dateRange.Some? {
      var r := f.dateRange.value;
      var e := Param("endDate", r.end);
      assert ParseParams("") == Some([]);
      ParseParam("endDate", r.end, "");
      assert e + "" == e;
      assert [("endDate", r.end)] + [] == [("endDate", r.end)];
      assert ParseParams(e) == Some([("endDate", r.end)]);
      ParseParam("startDate", r.start, e);
      assert DatePart(f) == Param("startDate", r.start) + e;
      assert [("startDate", r.start)] + [("endDate", r.end)] == DatePairs(f);
    }
  }

  lemma ParseActionAndDates(f: Filters)
    requires SeparableValues(f)
    ensures ParseParams(ActionPart(f) + DatePart(f)) == Some(ActionPairs(f) + DatePairs(f))
  {
    ParseDatePart(f);
    ParseActionPart(f, DatePart(f));
  }

  /**
   * Reading the query back gives exactly the expected parameters: the URL
   * carries the truthy filters, each with its value, in the fixed order.
   */
  lemma QueryRoundTrip(f: Filters)
    requires SeparableValues(f)
    ensures ParseParams(QueryOf(f)) == Some(ExpectedParams(f))
  {
    var u, a, d := UserIdPart(f), ActionPart(f), DatePart(f);
    var up, ap, dp := UserIdPairs(f), ActionPairs(f), DatePairs(f);
    calc {
      ParseParams(QueryOf(f));
      { assert QueryOf(f) == u + (a + d); }
      ParseParams(u + (a + d));
      { ParseUserIdPart(f, a + d); }
      Prefixed(up, ParseParams(a + d));
      { ParseActionAndDates(f); }
      Some(up + (ap + dp));
      { assert up + (ap + dp) == ExpectedParams(f); }
      Some(ExpectedParams(f));
    }
  }

  /** A truthy userId is the first parameter and reads back as the same number. */
  lemma UserIdRecovered(f: Filters)
    requires SeparableValues(f) && UserIdSet(f)
    ensures ParseParams(QueryOf(f)).Some?
    ensures ParseParams(QueryOf(f)).value[0].0 == "userId"
    ensures ParseDecimal(ParseParams(QueryOf(f)).value[0].1) == Some(f.userId.value)
  {
    QueryRoundTrip(f);
    DecimalRoundTrip(f.userId.value);
  }

  // ------------------------------------------------------------ action colours

  /** The colour of every action the server is known to log. */
  const ActionColors: map<string, string> := map[
    "login" := "green",
    "logout" := "volcano",
    "user_created" := "cyan",
    "user_updated" := "blue",
    "user_deleted" := "red",
    "viewed_logs" := "purple"]

  /** The actions offered by the page's action filter, in display order. */
  const ActionOptions: seq<string> :=
    ["viewed_logs", "login", "logout", "user_created", "user_updated", "user_deleted"]

  /** Colour of an action tag; any unknown action is "geekblue". */
  function ActionColor(action: string): (c: string)
    ensures c == "geekblue" <==> action !in ActionColors
  {
    if action == "login" then "green"
    else if action == "logout" then "volcano"
    else if action == "user_created" then "cyan"
    else if action == "user_updated" then "blue"
    else if action == "user_deleted" then "red"
    else if action == "viewed_logs" then "purple"
    else "geekblue"
  }

  /** ActionColor agrees with the colour table, with "geekblue" as the default. */
  lemma ActionColorTable(action: string)
    ensures ActionColor(action) == if action in ActionColors then ActionColors[action] else "geekblue"
  {
  }

  /** Every action the filter offers has its own colour, distinct from the default and from each other. */
  lemma ActionOptionsColoured()
    ensures forall i :: 0 <= i < |ActionOptions| ==> ActionColor(ActionOptions[i]) != "geekblue"
    ensures forall i, j :: 0 <= i < j < |ActionOptions| ==>
      ActionColor(ActionOptions[i]) != ActionColor(ActionOptions[j])
  {
  }

  // --------------------------------------------------------------- page state

  /** The filter state of the audit-log page. */
  class LogsPage {
    var filters: Filters

    /** The page starts with every filter undefined. */
    constructor ()
      ensures filters == NoFilters
    {
      filters := NoFilters;
    }

    /** `handleResetFilters`: every filter back to undefined. */
    method ResetFilters()
      modifies this
      ensures filters == NoFilters
    {
      filters := Filters(None, None, None);
    }

    /** The start of `fetchLogs`: the URL grown by successive appends. */
    method RequestUrl(base: string) returns (url: string)
      ensures url == LogsUrl(base, filters)
    {
      url := base + "/logs?";
      if UserIdSet(filters) {
        url := url + Param("userId", Decimal(filters.userId.value));
      }
      assert url == base + "/logs?" + UserIdPart(filters);
      if ActionSet(filters) {
        url := url + Param("action", filters.action.value);
      }
      assert url == base + "/logs?" + UserIdPart(filters) + ActionPart(filters);
      if filters.dateRange.Some? {
        var range := filters.dateRange.value;
        url := url + (Param("startDate", range.start) + Param("endDate", range.end));
      }
      assert url == base + "/logs?" + UserIdPart(filters) + ActionPart(filters) + DatePart(filters);
      LogsUrlParts(base, filters);
    }
  }
}
