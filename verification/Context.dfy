/** The attribute map that conditions read: the caller's attributes overlaid with the
    request's own fields and with the time of the request. */
module Context {
  import opened Values
  import opened Wrappers
  import opened Text

  const SECONDS_PER_DAY: int := 86400

  const WEEKDAYS: seq<string> :=
    ["sunday", "monday", "tuesday", "wednesday", "thursday", "friday", "saturday"]

  /** A moment in UTC: seconds since the start of 1970 with its rendering in the format
      of section 5.6 of RFC 3339. */
  datatype Instant = Instant(seconds: int, rfc3339: string) {

    function MinuteOfDay(): (m: nat)
      ensures m < 1440
    {
      seconds % SECONDS_PER_DAY / 60
    }

    /** 1 January 1970 was a Thursday. */
    function Weekday(): string {
      WEEKDAYS[(seconds / SECONDS_PER_DAY + 4) % 7]
    }
  }

  /** A request to evaluate a policy. `requestedAt` is the parsed request time, absent
      when the field is blank or malformed. */
  datatype Request = Request(
    subject: string, resource: string, action: string,
    sourceIP: string, deviceID: string, deviceTrust: string,
    riskScore: Option<real>, requestedAt: Option<Instant>,
    attributes: map<string, Value>)

  function TwoDigits(n: nat): (s: string)
    requires n < 100
    ensures |s| == 2
  {
    [Digit(n / 10), Digit(n % 10)]
  }

  /** The "HH:MM" form of a minute of the day. */
  function ClockString(minute: nat): (s: string)
    requires minute < 1440
    ensures |s| == 5
  {
    TwoDigits(minute / 60) + ":" + TwoDigits(minute % 60)
  }

  function Moment(req: Request, now: Instant): Instant {
    if req.requestedAt.Some? then req.requestedAt.value else now
  }

  /** The three keys that every evaluation sets. */
  function TimeFields(moment: Instant): map<string, Value> {
    map["time" := Str(ClockString(moment.MinuteOfDay())),
        "timestamp" := Str(moment.rfc3339),
        "day_of_week" := Str(moment.Weekday())]
  }

  function TextField(key: string, text: string): map<string, Value> {
    if text != "" then map[key := Str(text)] else map[]
  }

  function RiskField(riskScore: Option<real>): map<string, Value> {
    if riskScore.Some? then map["risk_score" := Num(Float64, riskScore.value)] else map[]
  }

  /** The keys set from the request's own fields, where those are filled in. */
  function RequestFields(req: Request): map<string, Value> {
    TextField("source_ip", TrimSpace(req.sourceIP))
    + TextField("device_id", TrimSpace(req.deviceID))
    + TextField("device_trust", ToLower(TrimSpace(req.deviceTrust)))
    + RiskField(req.riskScore)
  }

  /** What the request fixes by itself, whatever the caller's attributes say. */
  function Dedicated(req: Request, now: Instant): map<string, Value> {
    RequestFields(req) + TimeFields(Moment(req, now))
  }

  function Resolved(req: Request, now: Instant): map<string, Value> {
    req.attributes + Dedicated(req, now)
  }

  method Copy(attributes: map<string, Value>) returns (copied: map<string, Value>)
    ensures copied == attributes
  {
    copied := map[];
    var keys := attributes.Keys;
    while keys != {}
      invariant keys <= attributes.Keys
      invariant copied == map k | k in attributes.Keys - keys :: attributes[k]
      decreases keys
    {
      var k :| k in keys;
      copied := copied[k := attributes[k]];
      keys := keys - {k};
    }
  }

  lemma UnionAssociative<K, V>(a: map<K, V>, b: map<K, V>, c: map<K, V>)
    ensures a + b + c == a + (b + c)
  {
  }

  lemma OverlayAtOnce<K, V>(m: map<K, V>, a: map<K, V>, b: map<K, V>, c: map<K, V>, d: map<K, V>, e: map<K, V>)
    ensures m + a + b + c + d + e == m + (a + b + c + d + e)
  {
    UnionAssociative(m, a, b);
    UnionAssociative(m, a + b, c);
    UnionAssociative(m, a + b + c, d);
    UnionAssociative(m, a + b + c + d, e);
  }

  lemma OverlayHides<K, V>(a: map<K, V>, b: map<K, V>, own: map<K, V>)
    requires a - own.Keys == b - own.Keys
    ensures a + own == b + own
  {
    assert a + own == (a - own.Keys) + own;
    assert b + own == (b - own.Keys) + own;
  }

  method PutText(base: map<string, Value>, key: string, text: string) returns (m: map<string, Value>)
    ensures m == base + TextField(key, text)
  {
    m := base;
    if text != "" {
      m := m[key := Str(text)];
    }
  }

  method PutRisk(base: map<string, Value>, riskScore: Option<real>) returns (m: map<string, Value>)
    ensures m == base + RiskField(riskScore)
  {
    m := base;
    if riskScore.Some? {
      m := m["risk_score" := Num(Float64, riskScore.value)];
    }
  }

  method PutTime(base: map<string, Value>, moment: Instant) returns (m: map<string, Value>)
    ensures m == base + TimeFields(moment)
  {
    m := base["time" := Str(ClockString(moment.MinuteOfDay()))];
    m := m["timestamp" := Str(moment.rfc3339)];
    m := m["day_of_week" := Str(moment.Weekday())];
  }

  /** Builds the context: a copy of the caller's attributes, overwritten by the request's
      own fields and then by the time. */
  method Resolve(req: Request, clock: Instant) returns (resolved: map<string, Value>)
    ensures resolved == Resolved(req, clock)
  {
    var attributes := Copy(req.attributes);
    resolved := PutText(attributes, "source_ip", TrimSpace(req.sourceIP));
    resolved := PutText(resolved, "device_id", TrimSpace(req.deviceID));
    resolved := PutText(resolved, "device_trust", ToLower(TrimSpace(req.deviceTrust)));
    resolved := PutRisk(resolved, req.riskScore);
    var now := clock;
    if req.requestedAt.Some? {
      now := req.requestedAt.value;
    }
    resolved := PutTime(resolved, now);
    OverlayAtOnce(attributes, TextField("source_ip", TrimSpace(req.sourceIP)),
      TextField("device_id", TrimSpace(req.deviceID)),
      TextField("device_trust", ToLower(TrimSpace(req.deviceTrust))), RiskField(req.riskScore), TimeFields(now));
  }

  lemma RequestKeys(req: Request, key: string)
    ensures key in RequestFields(req) <==>
      || (key == "source_ip" && TrimSpace(req.sourceIP) != "")
      || (key == "device_id" && TrimSpace(req.deviceID) != "")
      || (key == "device_trust" && TrimSpace(req.deviceTrust) != "")
      || (key == "risk_score" && req.riskScore.Some?)
  {
    hide TrimSpace;
    assert |ToLower(TrimSpace(req.deviceTrust))| == |TrimSpace(req.deviceTrust)|;
  }

  lemma TimeKeys(moment: Instant, key: string)
    ensures key in TimeFields(moment) <==> key in {"time", "timestamp", "day_of_week"}
  {
    hide ClockString;
  }

  /** Which keys the request fixes: the three time keys always, each other one exactly
      when its field is filled in. */
  lemma DedicatedKeys(req: Request, now: Instant, key: string)
    ensures key in Dedicated(req, now) <==>
      || key in {"time", "timestamp", "day_of_week"}
      || (key == "source_ip" && TrimSpace(req.sourceIP) != "")
      || (key == "device_id" && TrimSpace(req.deviceID) != "")
      || (key == "device_trust" && TrimSpace(req.deviceTrust) != "")
      || (key == "risk_score" && req.riskScore.Some?)
  {
    hide RequestFields, TimeFields, TrimSpace;
    RequestKeys(req, key);
    TimeKeys(Moment(req, now), key);
  }

  /** Caller attributes hidden behind the request's own fields cannot be seen: two
      requests that agree elsewhere resolve to the same context. */
  lemma HiddenAttributesDoNotInterfere(req: Request, other: map<string, Value>, now: Instant)
    requires req.attributes - Dedicated(req, now).Keys == other - Dedicated(req, now).Keys
    ensures Resolved(req.(attributes := other), now) == Resolved(req, now)
  {
    OverlayHides(req.attributes, other, Dedicated(req, now));
  }

  // ---- The values ----

  /** The value under each key the request fixes, and the caller's value under any other. */
  lemma ResolvedValues(req: Request, now: Instant, key: string)
    ensures var m, at := Resolved(req, now), if req.requestedAt.Some? then req.requestedAt.value else now;
      && "time" in m && m["time"] == Str(ClockString(at.MinuteOfDay()))
      && "timestamp" in m && m["timestamp"] == Str(at.rfc3339)
      && "day_of_week" in m && m["day_of_week"] == Str(at.Weekday())
      && (key !in Dedicated(req, now) ==> (key in m <==> key in req.attributes))
      && (key !in Dedicated(req, now) && key in m ==> m[key] == req.attributes[key])
  {
    hide ClockString, RequestFields;
  }

  lemma RequestValues(req: Request)
    ensures var m := RequestFields(req);
      && (TrimSpace(req.sourceIP) != "" ==> "source_ip" in m && m["source_ip"] == Str(TrimSpace(req.sourceIP)))
      && (TrimSpace(req.deviceID) != "" ==> "device_id" in m && m["device_id"] == Str(TrimSpace(req.deviceID)))
      && (TrimSpace(req.deviceTrust) != "" ==>
        "device_trust" in m && m["device_trust"] == Str(LowerTrim(req.deviceTrust)))
      && (req.riskScore.Some? ==> "risk_score" in m && m["risk_score"] == Num(Float64, req.riskScore.value))
  {
    hide TrimSpace;
    assert |ToLower(TrimSpace(req.deviceTrust))| == |TrimSpace(req.deviceTrust)|;
    hide ToLower;
  }

  lemma OwnValueShows(req: Request, now: Instant, key: string)
    requires key in RequestFields(req) && key !in {"time", "timestamp", "day_of_week"}
    ensures key in Resolved(req, now) && Resolved(req, now)[key] == RequestFields(req)[key]
  {
    hide RequestFields, TimeFields;
    TimeKeys(Moment(req, now), key);
  }

  /** The value under each key that the request's own fields set. */
  lemma ResolvedRequestValues(req: Request, now: Instant)
    ensures var m := Resolved(req, now);
      && (TrimSpace(req.sourceIP) != "" ==> "source_ip" in m && m["source_ip"] == Str(TrimSpace(req.sourceIP)))
      && (TrimSpace(req.deviceID) != "" ==> "device_id" in m && m["device_id"] == Str(TrimSpace(req.deviceID)))
      && (TrimSpace(req.deviceTrust) != "" ==>
        "device_trust" in m && m["device_trust"] == Str(LowerTrim(req.deviceTrust)))
      && (req.riskScore.Some? ==> "risk_score" in m && m["risk_score"] == Num(Float64, req.riskScore.value))
  {
    hide RequestFields, Resolved, TrimSpace, LowerTrim;
    RequestValues(req);
    forall key | key in RequestFields(req) && key !in {"time", "timestamp", "day_of_week"}
      ensures key in Resolved(req, now) && Resolved(req, now)[key] == RequestFields(req)[key]
    {
      OwnValueShows(req, now, key);
    }
  }

  /** The minute of the day, told from the number of whole days, minutes and seconds. */
  lemma MinuteOfDayMeaning(day: int, minute: nat, second: nat, text: string)
    requires minute < 1440 && second < 60
    ensures Instant(day * 86400 + minute * 60 + second, text).MinuteOfDay() == minute
  {
  }

  /** The first day of 1970 was a Thursday, a day has one name throughout, and the next day has the
      next name of the week. */
  lemma WeekdayMeaning(day: int, second: nat, text: string, other: string, k: nat)
    requires second < 86400 && k < 7
    ensures Instant(0, text).Weekday() == "thursday"
    ensures Instant(day * 86400 + second, text).Weekday() == Instant(day * 86400, other).Weekday()
    ensures Instant(day * 86400, text).Weekday() == WEEKDAYS[k] ==>
      Instant((day + 1) * 86400, text).Weekday() == WEEKDAYS[(k + 1) % 7]
  {
    assert (day * 86400 + second) / 86400 == day && (day * 86400) / 86400 == day;
    assert ((day + 1) * 86400) / 86400 == day + 1;
    if WEEKDAYS[(day + 4) % 7] == WEEKDAYS[k] {
      WeekdayNamesDiffer((day + 4) % 7, k);
    }
  }

  lemma WeekdayNamesDiffer(j: nat, k: nat)
    requires j < 7 && k < 7 && WEEKDAYS[j] == WEEKDAYS[k]
    ensures j == k
  {
    assert |WEEKDAYS[0]| == 6 && |WEEKDAYS[1]| == 6 && |WEEKDAYS[2]| == 7 && |WEEKDAYS[3]| == 9;
    assert |WEEKDAYS[4]| == 8 && |WEEKDAYS[5]| == 6 && |WEEKDAYS[6]| == 8;
    assert WEEKDAYS[0][0] == 's' && WEEKDAYS[1][0] == 'm' && WEEKDAYS[5][0] == 'f';
    assert WEEKDAYS[4][0] == 't' && WEEKDAYS[6][0] == 's';
  }

  // ---- Clock strings ----

  predicate IsDigit(c: char) { '0' <= c <= '9' }

  predicate IsClockString(s: string) {
    |s| == 5 && IsDigit(s[0]) && IsDigit(s[1]) && s[2] == ':' && IsDigit(s[3]) && IsDigit(s[4])
    && DigitsOf(s[0], s[1]) < 24 && DigitsOf(s[3], s[4]) < 60
  }

  function DigitsOf(a: char, b: char): nat
    requires IsDigit(a) && IsDigit(b)
  {
    (a as int - '0' as int) * 10 + (b as int - '0' as int)
  }

  function MinuteOf(s: string): (m: nat)
    requires IsClockString(s)
    ensures m < 1440
  {
    DigitsOf(s[0], s[1]) * 60 + DigitsOf(s[3], s[4])
  }

  /** Well-formed "HH:MM" strings and minutes of the day are in one-to-one correspondence. */
  lemma ClockStringRoundTrip(minute: nat, s: string)
    ensures minute < 1440 ==> IsClockString(ClockString(minute)) && MinuteOf(ClockString(minute)) == minute
    ensures IsClockString(s) ==> ClockString(MinuteOf(s)) == s
  {
    if minute < 1440 {
      var h, m := TwoDigits(minute / 60), TwoDigits(minute % 60);
      assert ClockString(minute)[..2] == h && ClockString(minute)[3..] == m;
      assert ClockString(minute)[0] == h[0] && ClockString(minute)[1] == h[1];
      assert ClockString(minute)[3] == m[0] && ClockString(minute)[4] == m[1];
    }
    if IsClockString(s) {
      var h, m := DigitsOf(s[0], s[1]), DigitsOf(s[3], s[4]);
      assert MinuteOf(s) / 60 == h && MinuteOf(s) % 60 == m;
      assert Digit(h / 10) as int == s[0] as int && Digit(h % 10) as int == s[1] as int;
      assert Digit(m / 10) as int == s[3] as int && Digit(m % 10) as int == s[4] as int;
      assert TwoDigits(h) == [s[0], s[1]] && TwoDigits(m) == [s[3], s[4]];
      assert s == [s[0], s[1]] + ":" + [s[3], s[4]];
    }
  }

  /** On strings of the same length the order is decided at the first difference. */
  lemma {:induction false} LessAtFirstDifference(a: string, b: string, i: nat)
    requires i < |a| == |b| && a[..i] == b[..i] && a[i] < b[i]
    ensures Less(a, b)
  {
    if i > 0 {
      assert a[0] == a[..i][0] == b[..i][0] == b[0];
      assert a[1..][..i - 1] == a[..i][1..] && b[1..][..i - 1] == b[..i][1..];
      LessAtFirstDifference(a[1..], b[1..], i - 1);
    }
  }

  /** Comparing "HH:MM" strings byte by byte compares the minutes they denote. */
  lemma ClockStringOrder(a: string, b: string)
    requires IsClockString(a) && IsClockString(b) && MinuteOf(a) < MinuteOf(b)
    ensures Less(a, b)
  {
    if a[0] < b[0] {
      LessAtFirstDifference(a, b, 0);
    } else if a[1] < b[1] {
      LessAtFirstDifference(a, b, 1);
    } else if a[3] < b[3] {
      assert a[..3] == [a[0], a[1], a[2]] && b[..3] == [b[0], b[1], b[2]];
      LessAtFirstDifference(a, b, 3);
    } else {
      assert a[..4] == [a[0], a[1], a[2], a[3]] && b[..4] == [b[0], b[1], b[2], b[3]];
      LessAtFirstDifference(a, b, 4);
    }
  }
}
