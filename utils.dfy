/** src/modules/utils.js: the validators and formatters beside the core. */
module Utils {
  import opened Wrappers
  import opened Lighthouse

  // ---------------------------------------------------------------------
  // JavaScript values, as far as the validators look at them
  // ---------------------------------------------------------------------

  datatype JsNumber = NaN | PosInfinity | NegInfinity | Finite(r: real)

  datatype JsValue =
    | Undefined
    | Null
    | Bool(b: bool)
    | Number(n: JsNumber)
    | Str(s: string)
    | Arr(items: seq<JsValue>)
    | Obj(props: map<string, JsValue>)

  /** JavaScript truthiness: undefined, null, false, NaN, 0 and "" are falsy. */
  predicate Truthy(v: JsValue)
  {
    match v
    case Undefined => false
    case Null => false
    case Bool(b) => b
    case Number(n) => n != NaN && n != Finite(0.0)
    case Str(s) => s != []
    case Arr(_) => true
    case Obj(_) => true
  }

  /** `typeof v === 'object'`. */
  predicate IsObjectType(v: JsValue)
  {
    v.Null? || v.Arr? || v.Obj?
  }

  /** `v.hasOwnProperty(key)` for an object or an array. A modelled array
      has only its items, and the names the validators ask about are never
      array indices or `length`; named properties set on an array are not
      modelled. */
  predicate HasOwn(v: JsValue, key: string)
    requires v.Arr? || v.Obj?
  {
    v.Obj? && key in v.props
  }

  /** `v[key]` on an object, an array or a primitive (a missing property
      reads as undefined). */
  function Property(v: JsValue, key: string): (p: JsValue)
    requires !v.Null? && !v.Undefined?
    ensures !(v.Obj? && key in v.props) ==> p == Undefined
  {
    if v.Obj? && key in v.props then v.props[key] else Undefined
  }

  // ---------------------------------------------------------------------
  // validateResults
  // ---------------------------------------------------------------------

  const MetricFields: seq<string> := ["fcp", "lcp", "tbt", "cls", "si"]

  /** The `every` callback: an own property holding a number that is not
      NaN. */
  predicate NumericField(v: JsValue, field: string)
    requires v.Arr? || v.Obj?
  {
    HasOwn(v, field) && v.props[field].Number? && v.props[field].n != NaN
  }

  /** `fields.every(callback)`. */
  predicate Every(v: JsValue, fields: seq<string>)
    requires v.Arr? || v.Obj?
  {
    fields == [] || (NumericField(v, fields[0]) && Every(v, fields[1..]))
  }

  lemma {:induction false} EveryMeansAll(v: JsValue, fields: seq<string>)
    requires v.Arr? || v.Obj?
    ensures Every(v, fields) <==> forall i | 0 <= i < |fields| :: NumericField(v, fields[i])
  {
    if fields != [] {
      EveryMeansAll(v, fields[1..]);
      assert forall i | 1 <= i < |fields| :: fields[i] == fields[1..][i - 1];
    }
  }

  /** validateResults: a non-null object whose five metric fields are own
      properties holding numbers other than NaN. */
  predicate ValidateResults(v: JsValue): (b: bool)
    ensures b ==> v.Obj?
  {
    if !Truthy(v) || !IsObjectType(v) then false
    else Every(v, MetricFields)
  }

  lemma ValidateResultsMeans(v: JsValue)
    ensures ValidateResults(v) <==>
      v.Obj? && forall f | f in MetricFields :: f in v.props && v.props[f].Number? && v.props[f].n != NaN
  {
    if v.Arr? || v.Obj? {
      EveryMeansAll(v, MetricFields);
    }
  }

  /** The object extractMetrics builds. */
  function MetricsObject(m: Metrics): JsValue
  {
    Obj(map["fcp" := Number(Finite(m.fcp)), "lcp" := Number(Finite(m.lcp)), "tbt" := Number(Finite(m.tbt)),
            "cls" := Number(Finite(m.cls)), "si" := Number(Finite(m.si))])
  }

  /** Every metrics object the runner produces passes validateResults. */
  lemma MetricsValidate(m: Metrics)
    ensures ValidateResults(MetricsObject(m))
  {
    ValidateResultsMeans(MetricsObject(m));
  }

  /** Dropping any one metric field makes the object invalid. */
  lemma MissingFieldInvalid(m: Metrics, f: string)
    requires f in MetricFields
    ensures !ValidateResults(Obj(MetricsObject(m).props - {f}))
  {
    ValidateResultsMeans(Obj(MetricsObject(m).props - {f}));
  }

  // ---------------------------------------------------------------------
  // validateConfig
  // ---------------------------------------------------------------------

  const ConfigFields: seq<string> := ["SITES", "MEASUREMENTS_PER_CACHE_TYPE", "CHROME_PORT"]

  /** The exceptions validateConfig can end with: its three thrown errors,
      and the TypeError of reading `name` off a null or undefined site. */
  datatype ConfigError = MissingField(field: string) | NoSites | BadSite(site: JsValue) | TypeError

  /** The check one site gets, `isValidUrl` standing for the WHATWG URL
      parser. */
  function SiteVerdict(site: JsValue, isValidUrl: JsValue -> bool): Outcome<ConfigError>
  {
    if site.Null? || site.Undefined? then Fail(TypeError)
    else if !Truthy(Property(site, "name")) || !Truthy(Property(site, "url")) || !isValidUrl(Property(site, "url"))
    then Fail(BadSite(site))
    else Pass
  }

  predicate NonEmptyArray(v: JsValue)
  {
    v.Arr? && |v.items| > 0
  }

  /** validateConfig: every required key present (the first missing one is
      reported), SITES a non-empty array, every site accepted (the first
      rejected one is reported); then true. */
  method ValidateConfig(config: map<string, JsValue>, isValidUrl: JsValue -> bool) returns (r: Result<bool, ConfigError>)
    ensures r.Success? ==> r.value
    ensures r.Success? <==>
      && (forall f | f in ConfigFields :: f in config)
      && NonEmptyArray(config["SITES"])
      && forall i | 0 <= i < |config["SITES"].items| :: SiteVerdict(config["SITES"].items[i], isValidUrl).Pass?
    ensures r.Failure? && r.error.MissingField? ==>
      exists k | 0 <= k < |ConfigFields| :: ConfigFields[k] == r.error.field && r.error.field !in config
        && forall j | 0 <= j < k :: ConfigFields[j] in config
    ensures r == Failure(NoSites) <==> (forall f | f in ConfigFields :: f in config) && !NonEmptyArray(config["SITES"])
    ensures r.Failure? && (r.error.BadSite? || r.error.TypeError?) ==>
      && (forall f | f in ConfigFields :: f in config)
      && NonEmptyArray(config["SITES"])
      && exists k | 0 <= k < |config["SITES"].items| ::
        && SiteVerdict(config["SITES"].items[k], isValidUrl) == Fail(r.error)
        && forall j | 0 <= j < k :: SiteVerdict(config["SITES"].items[j], isValidUrl).Pass?
  {
    var i := 0;
    while i < |ConfigFields|
      invariant 0 <= i <= |ConfigFields|
      invariant forall j | 0 <= j < i :: ConfigFields[j] in config
    {
      if ConfigFields[i] !in config {
        return Failure(MissingField(ConfigFields[i]));
      }
      i := i + 1;
    }
    assert "SITES" in config by {
      assert ConfigFields[0] == "SITES";
    }
    var sites := config["SITES"];
    if !sites.Arr? || |sites.items| == 0 {
      return Failure(NoSites);
    }
    var k := 0;
    while k < |sites.items|
      invariant 0 <= k <= |sites.items|
      invariant forall j | 0 <= j < k :: SiteVerdict(sites.items[j], isValidUrl).Pass?
    {
      var site := sites.items[k];
      if site.Null? || site.Undefined? {
        return Failure(TypeError);
      }
      if !Truthy(Property(site, "name")) || !Truthy(Property(site, "url")) || !isValidUrl(Property(site, "url")) {
        return Failure(BadSite(site));
      }
      k := k + 1;
    }
    return Success(true);
  }

  // ---------------------------------------------------------------------
  // simplifyErrorMessage
  // ---------------------------------------------------------------------

  /** `s.includes(pattern)`. */
  predicate Includes(s: string, pattern: string): (b: bool)
    ensures b ==> |pattern| <= |s|
    ensures pattern == [] ==> b
  {
    |pattern| <= |s| && (s[..|pattern|] == pattern || Includes(s[1..], pattern))
  }

  /** The pattern occurs in s starting at position i. */
  predicate MatchesAt(s: string, pattern: string, i: int)
  {
    0 <= i <= |s| - |pattern| && s[i..i + |pattern|] == pattern
  }

  /** includes agrees with the textbook definition: some window of s equals
      the pattern. */
  lemma {:induction false} IncludesMeans(s: string, pattern: string)
    ensures Includes(s, pattern) <==> exists i :: MatchesAt(s, pattern, i)
  {
    if |pattern| <= |s| {
      if s[..|pattern|] == pattern {
        assert MatchesAt(s, pattern, 0);
      } else {
        IncludesMeans(s[1..], pattern);
        forall i | MatchesAt(s, pattern, i) ensures MatchesAt(s[1..], pattern, i - 1) {
          SliceOfTail(s, i, |pattern|);
        }
        forall j | MatchesAt(s[1..], pattern, j) ensures MatchesAt(s, pattern, j + 1) {
          SliceOfTail(s, j + 1, |pattern|);
        }
      }
    } else {
      forall i | MatchesAt(s, pattern, i) ensures false {
      }
    }
  }

  lemma SliceOfTail(s: string, i: int, n: nat)
    requires 1 <= i && i + n <= |s|
    ensures s[1..][i - 1..i - 1 + n] == s[i..i + n]
  {
    var window := s[1..][i - 1..i - 1 + n];
    assert forall k | 0 <= k < n :: window[k] == s[i + k];
  }

  /** A string lacking one of the pattern's characters does not include it. */
  lemma {:induction false} MissingCharExcludes(s: string, pattern: string, c: char)
    requires c in pattern && c !in s
    ensures !Includes(s, pattern)
  {
    if |pattern| <= |s| {
      MissingCharExcludes(s[1..], pattern, c);
    }
  }

  /** None of the three replacement texts contains a keyword. */
  lemma TextLacksKeywords(t: string)
    requires 'E' !in t && '_' !in t
    ensures !Includes(t, "ECONNREFUSED") && !Includes(t, "PROTOCOL_TIMEOUT") && !Includes(t, "CHROME_NOT_INSTALLED")
  {
    assert "ECONNREFUSED"[0] == 'E';
    assert "PROTOCOL_TIMEOUT"[8] == '_';
    assert "CHROME_NOT_INSTALLED"[6] == '_';
    MissingCharExcludes(t, "ECONNREFUSED", 'E');
    MissingCharExcludes(t, "PROTOCOL_TIMEOUT", '_');
    MissingCharExcludes(t, "CHROME_NOT_INSTALLED", '_');
  }

  const ConnectionRefused := "연결이 거부되었습니다 (Chrome이 실행되지 않았을 수 있습니다)"
  const ProtocolTimeout := "DevTools 프로토콜 응답 시간 초과"
  const ChromeNotInstalled := "Chrome 브라우저가 설치되지 않았습니다"

  /** simplifyErrorMessage on an error's message: the three known failures,
      checked in this order, get a fixed Korean text; anything else is passed
      through. */
  function SimplifyErrorMessage(message: string): (r: string)
    ensures r == message || r == ConnectionRefused || r == ProtocolTimeout || r == ChromeNotInstalled
  {
    if Includes(message, "ECONNREFUSED") then ConnectionRefused
    else if Includes(message, "PROTOCOL_TIMEOUT") then ProtocolTimeout
    else if Includes(message, "CHROME_NOT_INSTALLED") then ChromeNotInstalled
    else message
  }

  /** The keywords are checked in order and the first one occurring anywhere
      in the message wins; a message containing none of them is returned
      unchanged. */
  lemma SimplifyPriority(message: string)
    ensures (exists i :: MatchesAt(message, "ECONNREFUSED", i)) ==> SimplifyErrorMessage(message) == ConnectionRefused
    ensures (forall i :: !MatchesAt(message, "ECONNREFUSED", i)) && (exists i :: MatchesAt(message, "PROTOCOL_TIMEOUT", i))
      ==> SimplifyErrorMessage(message) == ProtocolTimeout
    ensures ((forall i :: !MatchesAt(message, "ECONNREFUSED", i)) && (forall i :: !MatchesAt(message, "PROTOCOL_TIMEOUT", i))
      && (exists i :: MatchesAt(message, "CHROME_NOT_INSTALLED", i))) ==> SimplifyErrorMessage(message) == ChromeNotInstalled
    ensures ((forall i :: !MatchesAt(message, "ECONNREFUSED", i)) && (forall i :: !MatchesAt(message, "PROTOCOL_TIMEOUT", i))
      && (forall i :: !MatchesAt(message, "CHROME_NOT_INSTALLED", i))) ==> SimplifyErrorMessage(message) == message
  {
    IncludesMeans(message, "ECONNREFUSED");
    IncludesMeans(message, "PROTOCOL_TIMEOUT");
    IncludesMeans(message, "CHROME_NOT_INSTALLED");
  }

  /** A message that simplifyErrorMessage passes through unchanged. */
  predicate Plain(t: string)
  {
    !Includes(t, "ECONNREFUSED") && !Includes(t, "PROTOCOL_TIMEOUT") && !Includes(t, "CHROME_NOT_INSTALLED")
  }

  lemma ReplacementsArePlain()
    ensures Plain(ConnectionRefused) && Plain(ProtocolTimeout) && Plain(ChromeNotInstalled)
  {
    ConnectionRefusedChars();
    ProtocolTimeoutChars();
    ChromeNotInstalledChars();
    TextLacksKeywords(ConnectionRefused);
    TextLacksKeywords(ProtocolTimeout);
    TextLacksKeywords(ChromeNotInstalled);
  }

  lemma ConnectionRefusedChars()
    ensures 'E' !in ConnectionRefused && '_' !in ConnectionRefused
  {
  }

  lemma ProtocolTimeoutChars()
    ensures 'E' !in ProtocolTimeout && '_' !in ProtocolTimeout
  {
  }

  lemma ChromeNotInstalledChars()
    ensures 'E' !in ChromeNotInstalled && '_' !in ChromeNotInstalled
  {
  }

  /** Simplifying twice changes nothing more: none of the three texts
      contains a keyword. */
  lemma SimplifyIdempotent(message: string)
    ensures SimplifyErrorMessage(SimplifyErrorMessage(message)) == SimplifyErrorMessage(message)
  {
    ReplacementsArePlain();
    if Includes(message, "ECONNREFUSED") {
      PassedThrough(ConnectionRefused);
    } else if Includes(message, "PROTOCOL_TIMEOUT") {
      PassedThrough(ProtocolTimeout);
    } else if Includes(message, "CHROME_NOT_INSTALLED") {
      PassedThrough(ChromeNotInstalled);
    }
  }

  lemma PassedThrough(t: string)
    requires Plain(t)
    ensures SimplifyErrorMessage(t) == t
  {
  }

  // ---------------------------------------------------------------------
  // showProgress
  // ---------------------------------------------------------------------

  /** Math.floor(a / b) for b != 0 (Dafny's `/` is Euclidean). */
  function FloorDiv(a: int, b: int): (q: int)
    requires b != 0
    ensures q * b <= a < q * b + b || q * b + b < a <= q * b
  {
    if b > 0 then a / b else (-a) / (-b)
  }

  function Repeat(c: char, n: nat): (s: string)
    ensures |s| == n && forall i | 0 <= i < n :: s[i] == c
  {
    if n == 0 then [] else [c] + Repeat(c, n - 1)
  }

  /** The percentage shown: Math.floor(current / total * 100), which is NaN
      for 0 / 0 (any other division by zero yields an infinite count, on
      which repeat throws). */
  datatype Percentage = Percent(value: int) | NotANumber

  datatype Progress = Progress(percentage: Percentage, bar: string)

  /** `String.prototype.repeat` with a negative or infinite count. */
  datatype ProgressError = RangeError

  /** showProgress's bar: floor(percentage / 10) full cells, then the rest of
      ten empty ones; repeat throws for a negative or infinite count and
      treats NaN as 0. */
  function ShowProgress(current: int, total: int): (r: Result<Progress, ProgressError>)
    ensures r.Success? && r.value.percentage.Percent? ==> |r.value.bar| == 10 && 0 <= r.value.percentage.value < 110
    ensures r.Success? && r.value.percentage.NotANumber? ==> current == 0 && total == 0 && r.value.bar == []
    ensures r.Success? && total > 0 ==> var pct := r.value.percentage;
      pct.Percent? && pct.value * total <= current * 100 < (pct.value + 1) * total
    ensures r.Success? && total < 0 ==> var pct := r.value.percentage;
      pct.Percent? && (pct.value + 1) * total < current * 100 <= pct.value * total
    ensures r.Success? && r.value.percentage.Percent? ==>
      forall i | 0 <= i < |r.value.bar| :: r.value.bar[i] == (if i < r.value.percentage.value / 10 then '█' else '░')
    ensures total == 0 ==> (r.Failure? <==> current != 0)
  {
    if total == 0 then
      if current == 0 then Success(Progress(NotANumber, ""))
      else Failure(RangeError)
    else
      var pct := FloorDiv(current * 100, total);
      var filled := FloorDiv(pct, 10);
      if filled < 0 || 10 - filled < 0 then Failure(RangeError)
      else Success(Progress(Percent(pct), Repeat('█', filled) + Repeat('░', 10 - filled)))
  }

  /** For 0 <= current <= total the bar is ten cells, floor(pct / 10) of
      them full, with 0 <= pct <= 100. */
  lemma ProgressBar(current: int, total: int)
    requires 0 <= current <= total && total > 0
    ensures ShowProgress(current, total).Success?
    ensures var p := ShowProgress(current, total).value;
      && p.percentage.Percent? && 0 <= p.percentage.value <= 100
      && |p.bar| == 10
      && p.percentage.value * total <= current * 100 < (p.percentage.value + 1) * total
      && (forall i | 0 <= i < |p.bar| :: p.bar[i] == (if i < p.percentage.value / 10 then '█' else '░'))
  {
    var pct := FloorDiv(current * 100, total);
    if pct > 100 {
      MulMonotone(101, pct, total);
    }
    if pct < 0 {
      MulMonotone(pct + 1, 0, total);
    }
    var filled := pct / 10;
    assert FloorDiv(pct, 10) == filled;
    var bar := Repeat('█', filled) + Repeat('░', 10 - filled);
    assert ShowProgress(current, total) == Success(Progress(Percent(pct), bar));
    forall i | 0 <= i < |bar| ensures bar[i] == (if i < filled then '█' else '░') {
    }
  }

  /** A current position beyond the total overflows the bar and makes repeat
      throw once the percentage reaches 110. */
  lemma ProgressOverflow(current: int, total: int)
    requires total > 0 && current * 100 >= 110 * total
    ensures ShowProgress(current, total) == Failure(RangeError)
  {
    var pct := FloorDiv(current * 100, total);
    if pct < 110 {
      MulMonotone(pct + 1, 110, total);
    }
  }

  /** With a positive total, showProgress throws exactly when the position is
      negative or at 110 % of the total or beyond; with a negative total,
      exactly when the position is positive or at 110 % or beyond (both
      negative). */
  lemma ProgressRange(current: int, total: int)
    requires total != 0
    ensures total > 0 ==> (ShowProgress(current, total).Failure? <==> current < 0 || current * 100 >= 110 * total)
    ensures total < 0 ==> (ShowProgress(current, total).Failure? <==> current > 0 || current * 100 <= 110 * total)
  {
    var a := current * 100;
    var pct := FloorDiv(a, total);
    assert ShowProgress(current, total).Failure? <==> pct < 0 || pct >= 110;
    if total > 0 {
      FloorBounds(a, total, pct);
    } else {
      assert pct * (-total) == -(pct * total);
      FloorBounds(-a, -total, pct);
    }
  }

  /** The sign of a floored quotient, and whether it reaches 110, read off
      the dividend. */
  lemma FloorBounds(a: int, t: int, q: int)
    requires t > 0 && q * t <= a < q * t + t
    ensures q < 0 <==> a < 0
    ensures q >= 110 <==> a >= 110 * t
  {
    if q < 0 {
      MulMonotone(q + 1, 0, t);
    } else {
      MulMonotone(0, q, t);
    }
    if q >= 110 {
      MulMonotone(110, q, t);
    } else {
      MulMonotone(q + 1, 110, t);
    }
  }

  lemma MulMonotone(a: int, b: int, c: int)
    requires a <= b && c > 0
    ensures a * c <= b * c
  {
  }

  // ---------------------------------------------------------------------
  // formatFileSize
  // ---------------------------------------------------------------------

  const Units: seq<string> := ["B", "KB", "MB", "GB"]

  function Pow1024(k: nat): (p: real)
    ensures p >= 1.0
  {
    if k == 0 then 1.0 else 1024.0 * Pow1024(k - 1)
  }

  /** formatFileSize's unit loop and its rounding to two decimals; the text
      `${value} ${unit}` is not modelled. */
  method FormatFileSize(bytes: real) returns (value: real, unit: string, size: real, unitIndex: nat)
    ensures unitIndex <= 3 && unit == Units[unitIndex]
    ensures size == bytes / Pow1024(unitIndex)
    ensures unitIndex == 3 || size < 1024.0
    ensures forall j | 0 <= j < unitIndex :: bytes / Pow1024(j) >= 1024.0
    ensures value == MathRound(size * 100.0) as real / 100.0
  {
    size := bytes;
    unitIndex := 0;
    while size >= 1024.0 && unitIndex < |Units| - 1
      invariant unitIndex <= 3
      invariant size == bytes / Pow1024(unitIndex)
      invariant forall j | 0 <= j < unitIndex :: bytes / Pow1024(j) >= 1024.0
      decreases 3 - unitIndex
    {
      DivideStep(bytes, unitIndex);
      size := size / 1024.0;
      unitIndex := unitIndex + 1;
    }
    value := MathRound(size * 100.0) as real / 100.0;
    unit := Units[unitIndex];
  }

  lemma DivideStep(bytes: real, k: nat)
    ensures bytes / Pow1024(k) / 1024.0 == bytes / Pow1024(k + 1)
  {
    var p := Pow1024(k);
    assert Pow1024(k + 1) == 1024.0 * p;
    assert bytes / p / 1024.0 == bytes / (1024.0 * p);
  }
}
