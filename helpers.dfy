/** The module-level helper functions of hass-hgl-to-yaml.py
    (lines 46-87 and 261-304). */
module Helpers {

  import opened Wrappers
  import opened Text
  import opened Records
  import opened Exceptions

  /** `expand_star`: every `*` of `text` becomes `expansion`. */
  function ExpandStar(expansion: string, text: string): string
  {
    Replace(text, "*", expansion)
  }

  /** A text without wildcards is left as it is. */
  lemma ExpandStarNoStar(e: string, t: string)
    requires '*' !in t
    ensures ExpandStar(e, t) == t
  {
    ContainsCharIn(t, '*');
    ReplaceAbsent(t, "*", e);
  }

  /** Expanding with a wildcard-free text leaves no wildcard behind. */
  lemma {:induction false} ExpandStarLeavesNoStar(e: string, t: string)
    requires '*' !in e
    ensures '*' !in ExpandStar(e, t)
    decreases |t|
  {
    if |t| > 0 {
      ExpandStarLeavesNoStar(e, t[1..]);
    }
  }

  /** A longer expansion gives a longer text as soon as there is a wildcard,
      and expansions of equal length give texts of equal length. */
  lemma {:induction false} ExpandStarLengths(e1: string, e2: string, t: string)
    ensures |e1| == |e2| ==> |ExpandStar(e1, t)| == |ExpandStar(e2, t)|
    ensures |e1| < |e2| ==> |ExpandStar(e1, t)| <= |ExpandStar(e2, t)|
    ensures |e1| < |e2| && '*' in t ==> |ExpandStar(e1, t)| < |ExpandStar(e2, t)|
    decreases |t|
  {
    if |t| > 0 {
      ExpandStarLengths(e1, e2, t[1..]);
      assert t == [t[0]] + t[1..];
    }
  }

  /** The text up to the first wildcard is copied, the wildcard replaced. */
  lemma {:induction false} ExpandStarAtFirst(e: string, t: string, i: nat)
    requires i < |t| && t[i] == '*' && '*' !in t[..i]
    ensures ExpandStar(e, t) == t[..i] + e + ExpandStar(e, t[i + 1..])
    decreases i
  {
    if i > 0 {
      assert t[0] != '*' by { assert t[0] == t[..i][0]; }
      assert t[1..][..i - 1] == t[1..i];
      assert t[..i] == [t[0]] + t[1..i];
      ExpandStarAtFirst(e, t[1..], i - 1);
      assert t[1..][i - 1 + 1..] == t[i + 1..];
      assert [t[0]] + t[1..][..i - 1] == t[..i];
    }
  }

  function FirstStar(t: string): (i: nat)
    requires '*' in t
    ensures i < |t| && t[i] == '*' && '*' !in t[..i]
  {
    if t[0] == '*' then 0
    else
      var j := FirstStar(t[1..]);
      assert t[..j + 1] == [t[0]] + t[1..][..j];
      j + 1
  }

  /** Distinct expansions of a wildcard text give distinct texts. */
  lemma ExpandStarInjective(e1: string, e2: string, t: string)
    requires '*' in t && e1 != e2
    ensures ExpandStar(e1, t) != ExpandStar(e2, t)
  {
    var i := FirstStar(t);
    ExpandStarAtFirst(e1, t, i);
    ExpandStarAtFirst(e2, t, i);
    ExpandStarLengths(e1, e2, t);
    ExpandStarLengths(e2, e1, t);
    if |e1| == |e2| {
      var r1, r2 := ExpandStar(e1, t), ExpandStar(e2, t);
      assert r1[i..i + |e1|] == e1;
      assert r2[i..i + |e2|] == e2;
    }
  }

  /** `media_cleanups`: `media_volume` becomes `volume` and `channel_down`
      becomes `next_track`. */
  function MediaCleanups(service: string): string
  {
    Replace(Replace(service, "media_volume", "volume"), "channel_down", "next_track")
  }

  /** A service name that mentions neither word is left as it is. */
  lemma MediaCleanupsUntouched(service: string)
    requires !Contains(service, "media_volume") && !Contains(service, "channel_down")
    ensures MediaCleanups(service) == service
  {
    ReplaceAbsent(service, "media_volume", "volume");
    ReplaceAbsent(service, "channel_down", "next_track");
  }

  /** `media_volume` is rewritten to `volume` where it occurs, provided no
      other occurrence starts before it or after it. */
  lemma MediaVolumeCleaned(a: string, b: string)
    requires !Contains(a + "media_volum", "media_volume") && !Contains(b, "media_volume")
    requires !Contains(a, "channel_down") && !Contains(b, "channel_down")
    ensures MediaCleanups(a + "media_volume" + b) == a + "volume" + b
  {
    assert "media_volume"[..11] == "media_volum";
    ReplaceOnce(a, "media_volume", "volume", b);
    AbsentAcrossVolume(a, b);
    ReplaceAbsent(a + "volume" + b, "channel_down", "next_track");
  }

  /** `channel_down` is rewritten to `next_track` where it occurs. */
  lemma ChannelDownCleaned(a: string, b: string)
    requires !Contains(a, "media_volume") && !Contains(b, "media_volume")
    requires !Contains(a, "channel_down") && !Contains(b, "channel_down")
    ensures MediaCleanups(a + "channel_down" + b) == a + "next_track" + b
  {
    AbsentAcrossChannelDown(a, b);
    ReplaceAbsent(a + "channel_down" + b, "media_volume", "volume");
    assert "channel_down"[..11] == "channel_dow";
    NoOccurrenceBeforeChannelDown(a);
    ReplaceOnce(a, "channel_down", "next_track", b);
  }

  /** `volume` creates no `channel_down` across its borders. */
  lemma AbsentAcrossVolume(a: string, b: string)
    requires !Contains(a, "channel_down") && !Contains(b, "channel_down")
    ensures !Contains(a + "volume" + b, "channel_down")
  {
    var s, w := a + "volume" + b, "channel_down";
    if Contains(s, w) {
      var i := ContainsIndex(s, w);
      OccurrenceOutsideMiddle(a, "volume", b, w, i);
      if i <= |a| {
        OccurrenceChar(s, w, i, |a|);
      } else {
        OccurrenceChar(s, w, i, |a| + 5);
      }
    }
  }

  /** `channel_down` creates no `media_volume` across its borders. */
  lemma AbsentAcrossChannelDown(a: string, b: string)
    requires !Contains(a, "media_volume") && !Contains(b, "media_volume")
    ensures !Contains(a + "channel_down" + b, "media_volume")
  {
    var s, w := a + "channel_down" + b, "media_volume";
    if Contains(s, w) {
      var i := ContainsIndex(s, w);
      OccurrenceOutsideMiddle(a, "channel_down", b, w, i);
      if i <= |a| {
        OccurrenceChar(s, w, i, |a|);
      } else {
        OccurrenceChar(s, w, i, |a| + 11);
      }
    }
  }

  /** `channel_down` does not overlap itself, so none starts inside `a`. */
  lemma NoOccurrenceBeforeChannelDown(a: string)
    requires !Contains(a, "channel_down")
    ensures !Contains(a + "channel_dow", "channel_down")
  {
    var s, w := a + "channel_dow", "channel_down";
    if Contains(s, w) {
      var i := ContainsIndex(s, w);
      OccurrenceOutsideMiddle(a, "channel_dow", "", w, i);
      OccurrenceChar(s, w, i, |a|);
    }
  }

  /** `lines_from_meta`: the source position appended to synthesized names. */
  function LinesFromMeta(line: nat, endLine: nat): string
  {
    if line == endLine then " (line " + NatToString(line) + ")"
    else " (lines " + NatToString(line) + " to " + NatToString(endLine) + ")"
  }

  /** Rules on different single lines get different positions. */
  lemma LinesFromMetaInjective(a: nat, b: nat)
    requires LinesFromMeta(a, a) == LinesFromMeta(b, b)
    ensures a == b
  {
    var sa, sb := LinesFromMeta(a, a), LinesFromMeta(b, b);
    assert |NatToString(a)| == |NatToString(b)|;
    assert NatToString(a) == sa[7..|sa| - 1];
    assert NatToString(b) == sb[7..|sb| - 1];
    NatToStringInjective(a, b);
  }

  /** `replace_action_wildcards_from`: an else-branch service written with a
      wildcard takes the primary branch's service. */
  function ReplaceActionWildcardsFrom(elseService: string, service: string): (r: string)
    ensures elseService == "*" ==> r == service
    ensures elseService != "*" && Contains(elseService, "*.") ==> r == service + elseService[2..]
    ensures elseService != "*" && !Contains(elseService, "*.") ==> r == elseService
  {
    if elseService == "*" then service
    else if Contains(elseService, "*.") then service + elseService[2..]
    else elseService
  }

  /** A bare `*` is substituted exactly as `expand_star` would. */
  lemma BareWildcardIsExpansion(service: string)
    ensures ReplaceActionWildcardsFrom("*", service) == ExpandStar(service, "*")
  {
    assert "*"[1..] == "";
  }

  /** One `is_state("entity", "value")` clause. */
  function IsStateClause(entity: string, value: string): string
  {
    "is_state(\"" + entity + "\", \"" + value + "\")"
  }

  function IsStateClauses(entities: seq<string>, value: string): (r: seq<string>)
    ensures |r| == |entities|
    ensures forall k :: 0 <= k < |r| ==> r[k] == IsStateClause(entities[k], value)
  {
    seq(|entities|, k requires 0 <= k < |entities| => IsStateClause(entities[k], value))
  }

  /** `template_from_condis`: the clauses joined by the connective, in `{{ }}`. */
  function TemplateFromCondis(connector: Connector, entities: seq<string>, value: string): string
  {
    "{{" + Join(" " + connector.Word() + " ", IsStateClauses(entities, value)) + "}}"
  }

  /** A template over one entity is its single clause in `{{ }}`. */
  lemma TemplateFromCondisSingle(connector: Connector, entity: string, value: string)
    ensures TemplateFromCondis(connector, [entity], value) == "{{" + IsStateClause(entity, value) + "}}"
  {
    assert IsStateClauses([entity], value) == [IsStateClause(entity, value)];
  }

  /** One more entity inserts the connective and its clause just before
      the closing `}}`. */
  lemma TemplateFromCondisSnoc(connector: Connector, entities: seq<string>, entity: string, value: string)
    requires |entities| > 0
    ensures var t := TemplateFromCondis(connector, entities, value);
            |t| >= 4 && t[|t| - 2..] == "}}"
            && TemplateFromCondis(connector, entities + [entity], value)
               == t[..|t| - 2] + " " + connector.Word() + " " + IsStateClause(entity, value) + "}}"
  {
    var sep := " " + connector.Word() + " ";
    var cs := IsStateClauses(entities, value);
    assert IsStateClauses(entities + [entity], value) == cs + [IsStateClause(entity, value)];
    JoinSnoc(sep, cs, IsStateClause(entity, value));
    var t := TemplateFromCondis(connector, entities, value);
    assert t[..|t| - 2] == "{{" + Join(sep, cs);
  }

  /** Clause `k` of the template reads `is_state(entities[k], value)`, and it
      lies inside the `{{ }}` brackets. */
  lemma {:induction false} TemplateClauseAt(connector: Connector, entities: seq<string>, value: string, k: nat)
    returns (p: nat)
    requires k < |entities|
    ensures ClauseInside(TemplateFromCondis(connector, entities, value), IsStateClause(entities[k], value), p)
    decreases |entities|
  {
    if |entities| == 1 {
      p := SingleClauseAt(connector, entities[0], value);
      assert [entities[0]] == entities;
    } else {
      var init, last := entities[..|entities| - 1], entities[|entities| - 1];
      TemplateSnocShape(connector, entities, value);
      var t0 := TemplateFromCondis(connector, init, value);
      var t := TemplateFromCondis(connector, entities, value);
      var sep, cl := " " + connector.Word() + " ", IsStateClause(last, value);
      if k < |entities| - 1 {
        assert entities[k] == init[k];
        p := TemplateClauseAt(connector, init, value, k);
        ClauseKeptBySnoc(t0, t, sep + cl, IsStateClause(entities[k], value), p);
      } else {
        p := ClauseAtEnd(t0, t, sep, cl);
      }
    }
  }

  /** The single clause of a one-entity template follows the `{{`. */
  lemma SingleClauseAt(connector: Connector, entity: string, value: string) returns (p: nat)
    ensures ClauseInside(TemplateFromCondis(connector, [entity], value), IsStateClause(entity, value), p)
  {
    TemplateFromCondisSingle(connector, entity, value);
    p := 2;
    var t := TemplateFromCondis(connector, [entity], value);
    assert t[p..p + |IsStateClause(entity, value)|] == IsStateClause(entity, value);
  }

  /** TemplateFromCondisSnoc, read off a template of two or more entities. */
  lemma TemplateSnocShape(connector: Connector, entities: seq<string>, value: string)
    requires |entities| >= 2
    ensures var t0 := TemplateFromCondis(connector, entities[..|entities| - 1], value);
            |t0| >= 4
            && TemplateFromCondis(connector, entities, value)
               == t0[..|t0| - 2] + (" " + connector.Word() + " ") + IsStateClause(entities[|entities| - 1], value) + "}}"
  {
    var init, last := entities[..|entities| - 1], entities[|entities| - 1];
    assert init + [last] == entities;
    TemplateFromCondisSnoc(connector, init, last, value);
  }

  /** `cl` occurs in `t` at `p`, after the opening `{{` and before the
      closing `}}`. */
  predicate ClauseInside(t: string, cl: string, p: nat)
  {
    2 <= p && p + |cl| + 2 <= |t| && t[p..p + |cl|] == cl
  }

  /** A clause before the closing `}}` stays put when text is inserted there. */
  lemma ClauseKeptBySnoc(t0: string, t: string, extra: string, cl: string, p: nat)
    requires |t0| >= 2 && t == t0[..|t0| - 2] + extra + "}}"
    requires ClauseInside(t0, cl, p)
    ensures ClauseInside(t, cl, p)
  {
    assert t[p..p + |cl|] == t0[..|t0| - 2][p..p + |cl|];
  }

  /** A clause inserted before the closing `}}` sits right after the separator. */
  lemma ClauseAtEnd(t0: string, t: string, sep: string, cl: string) returns (p: nat)
    requires |t0| >= 4 && t == t0[..|t0| - 2] + sep + cl + "}}"
    ensures ClauseInside(t, cl, p)
  {
    p := |t0| - 2 + |sep|;
    assert t[p..p + |cl|] == cl;
  }

  /** What a condis template means for a map from entity to current state:
      the template's clause `k` tests `entities[k]` (TemplateFromCondisSingle,
      TemplateFromCondisSnoc), and the clauses are joined by `connector`. */
  predicate InState(states: map<string, string>, entity: string, value: string)
  {
    entity in states && states[entity] == value
  }

  predicate CondisHolds(states: map<string, string>, connector: Connector, entities: seq<string>, value: string)
  {
    match connector
    case Or => exists k :: 0 <= k < |entities| && InState(states, entities[k], value)
    case And => forall k :: 0 <= k < |entities| ==> InState(states, entities[k], value)
  }

  /** The else template (dual connective, else value) never holds together
      with the primary one when the two values differ. */
  lemma ElseExcludesPrimary(states: map<string, string>, connector: Connector,
                            entities: seq<string>, value: string, elseValue: string)
    requires |entities| > 0 && value != elseValue
    ensures !(CondisHolds(states, connector.Inverse(), entities, elseValue)
              && CondisHolds(states, connector, entities, value))
  {
  }

  /** When every entity is in one of the two states, the else template is
      exactly the negation of the primary one (De Morgan). */
  lemma ElseIsNegation(states: map<string, string>, connector: Connector,
                       entities: seq<string>, value: string, elseValue: string)
    requires value != elseValue
    requires forall k :: 0 <= k < |entities| ==>
               entities[k] in states && states[entities[k]] in {value, elseValue}
    ensures CondisHolds(states, connector.Inverse(), entities, elseValue)
            <==> !CondisHolds(states, connector, entities, value)
  {
  }

  /** With two or more entities the dual template is a different text. */
  lemma TemplateInverseDiffers(connector: Connector, entities: seq<string>, value: string)
    requires |entities| >= 2
    ensures TemplateFromCondis(connector, entities, value)
            != TemplateFromCondis(connector.Inverse(), entities, value)
  {
    var cs := IsStateClauses(entities, value);
    var sep1, sep2 := " " + connector.Word() + " ", " " + connector.Inverse().Word() + " ";
    JoinSeparatorAt(sep1, cs, 1);
    JoinSeparatorAt(sep2, cs, 1);
    var t1 := TemplateFromCondis(connector, entities, value);
    var t2 := TemplateFromCondis(connector.Inverse(), entities, value);
    assert t1[2 + |cs[0]| + 1] == sep1[1];
    assert t2[2 + |cs[0]| + 1] == sep2[1];
  }

  /** Right after the first part of a join comes the separator. */
  lemma JoinSeparatorAt(sep: string, parts: seq<string>, k: nat)
    requires |parts| >= 2 && k < |sep|
    ensures |Join(sep, parts)| > |parts[0]| + k
    ensures Join(sep, parts)[|parts[0]| + k] == sep[k]
  {
    assert Join(sep, parts) == parts[0] + sep + Join(sep, parts[1..]);
  }

  /** The domain `service_default` falls back to. */
  function FallbackDomain(default: string): string
  {
    if default == "" then "homeassistant" else default
  }

  /** `service_default`: a dotted name is kept; a bare one gets the default
      domain (`homeassistant` when the default is empty or None). */
  function ServiceDefault(default: string, service: string): (r: string)
    ensures '.' in r
    ensures '.' in service ==> r == service
    ensures '.' !in service ==> r == FallbackDomain(default) + "." + service
  {
    if '.' in service then service
    else
      var r := FallbackDomain(default) + "." + service;
      assert r[|FallbackDomain(default)|] == '.';
      r
  }

  /** Applying the default twice is applying it once. */
  lemma ServiceDefaultIdempotent(d1: string, d2: string, service: string)
    ensures ServiceDefault(d2, ServiceDefault(d1, service)) == ServiceDefault(d1, service)
  {
  }

  /** `domain_from`: False for a missing entity, None for a bare one, else
      the text before the first dot. */
  datatype DomainResult = NotGiven | NoDomain | Domain(name: string)
  {
    /** Python truthiness of the result. */
    predicate Truthy()
    {
      Domain? && name != ""
    }
  }

  function DomainFrom(entity: Option<string>): (r: DomainResult)
    ensures r.NotGiven? <==> entity.None?
    ensures r.NoDomain? <==> entity.Some? && '.' !in entity.value
    ensures r.Domain? ==> r.name + "." <= entity.value && '.' !in r.name
    ensures r.Domain? ==> r.name == BeforeFirst(entity.value, '.')
  {
    match entity
    case None => NotGiven
    case Some(e) =>
      if '.' in e then
        var d := BeforeFirst(e, '.');
        assert e[..|d| + 1] == d + ".";
        Domain(d)
      else NoDomain
  }

  /** A defaulted name always has a domain, and for a bare name with a
      dot-free default it is that default. */
  lemma DomainOfDefault(default: string, service: string)
    ensures DomainFrom(Some(ServiceDefault(default, service))).Domain?
    ensures '.' !in service && '.' !in FallbackDomain(default) ==>
              DomainFrom(Some(ServiceDefault(default, service))) == Domain(FallbackDomain(default))
  {
    if '.' !in service && '.' !in FallbackDomain(default) {
      var f := FallbackDomain(default);
      assert ServiceDefault(default, service) == f + ['.'] + service;
      BeforeFirstOfPrefix(f, '.', service);
    }
  }

  /** `minutes_from_time_duration` as written: the dictionary branch indexes
      `dict.keys()`, which raises TypeError in Python 3; the clock branch
      splits on `:` and parses each piece with `int`. */
  function MinutesFromTimeDurationAsWritten(d: Duration): Result<real>
  {
    match d
    case Amount(_, _) => Err(DictKeysNotSubscriptable)
    case Clock(text) => MinutesFromClock(text)
  }

  /** The colon branch: `H:M:S`, `M:S`, or a single number of seconds. */
  function MinutesFromClock(text: string): Result<real>
  {
    MinutesFromParts(Split(text, ':'))
  }

  function MinutesFromParts(parts: seq<string>): Result<real>
    requires |parts| > 0
  {
    if !AllDigits(parts) then Err(ClockNotAnInteger)
    else
      var s := Values(parts);
      if |s| == 3 then Ok(s[0] * 60.0 + s[1] + s[2] / 60.0)
      else if |s| == 2 then Ok(s[0] + s[1] / 60.0)
      else Ok(s[0] / 60.0)
  }

  predicate AllDigits(parts: seq<string>)
  {
    forall k :: 0 <= k < |parts| ==> IsDigits(parts[k])
  }

  /** `[int(a) for a in parts]`. */
  function Values(parts: seq<string>): (r: seq<real>)
    requires AllDigits(parts)
    ensures |r| == |parts|
    ensures forall k :: 0 <= k < |r| ==> r[k] == DigitsValue(parts[k]) as real
  {
    seq(|parts|, k requires 0 <= k < |parts| => DigitsValue(parts[k]) as real)
  }

  /** `minutes_from_time_duration` as evidently intended: the dictionary
      branch reads its single unit and count. */
  function MinutesFromTimeDuration(d: Duration): (r: Result<real>)
    ensures d.Clock? ==> r == MinutesFromTimeDurationAsWritten(d)
    ensures r.Err? ==> d.Clock? || d.unit !in {"minutes", "seconds", "hours"}
  {
    match d
    case Amount(unit, n) =>
      if unit == "minutes" then Ok(n as real)
      else if unit == "seconds" then Ok(n as real / 60.0)
      else if unit == "hours" then Ok(n as real * 60.0)
      else Err(UnknownUnit)
    case Clock(text) => MinutesFromClock(text)
  }

  /** Counterexample: `sunset + 30 minutes` reaches the dictionary branch,
      which fails as written. */
  lemma AsWrittenRejectsAmount()
    ensures MinutesFromTimeDurationAsWritten(Amount("minutes", 30)).Err?
    ensures MinutesFromTimeDuration(Amount("minutes", 30)) == Ok(30.0)
  {
  }

  /** The clock text `h:m:s` for three counts. */
  function ClockText(h: nat, m: nat, s: nat): string
  {
    NatToString(h) + ":" + NatToString(m) + ":" + NatToString(s)
  }

  /** A printed `h:m:s` clock splits into its three numbers. */
  lemma SplitClock(h: nat, m: nat, s: nat)
    ensures Split(ClockText(h, m, s), ':') == [NatToString(h), NatToString(m), NatToString(s)]
  {
    var hs, ms, ss := NatToString(h), NatToString(m), NatToString(s);
    assert ':' !in hs && ':' !in ms && ':' !in ss;
    SplitNoSeparator(ss, ':');
    SplitAppend(ms, ':', ss);
    assert ClockText(h, m, s) == hs + [':'] + (ms + [':'] + ss);
    SplitAppend(hs, ':', ms + [':'] + ss);
  }

  /** A printed `h:m:s` clock is `60h + m + s/60` minutes. */
  lemma ClockMinutes(h: nat, m: nat, s: nat)
    ensures MinutesFromClock(ClockText(h, m, s)) == Ok(h as real * 60.0 + m as real + s as real / 60.0)
  {
    SplitClock(h, m, s);
    ParsePrinted(h);
    ParsePrinted(m);
    ParsePrinted(s);
    ThreeParts(NatToString(h), NatToString(m), NatToString(s), h, m, s);
  }

  lemma ThreeParts(a: string, b: string, c: string, x: nat, y: nat, z: nat)
    requires IsDigits(a) && IsDigits(b) && IsDigits(c)
    requires DigitsValue(a) == x && DigitsValue(b) == y && DigitsValue(c) == z
    ensures MinutesFromParts([a, b, c]) == Ok(x as real * 60.0 + y as real + z as real / 60.0)
  {
    var parts := [a, b, c];
    assert AllDigits(parts);
    var vs := Values(parts);
    assert MinutesFromParts(parts) == Ok(vs[0] * 60.0 + vs[1] + vs[2] / 60.0);
    assert vs[0] == DigitsValue(parts[0]) as real == x as real;
    assert vs[1] == DigitsValue(parts[1]) as real == y as real;
    assert vs[2] == DigitsValue(parts[2]) as real == z as real;
  }

  /** The clock text equivalent to a count of one unit. */
  function ClockFor(unit: string, n: nat): string
  {
    if unit == "hours" then ClockText(n, 0, 0)
    else if unit == "minutes" then ClockText(0, n, 0)
    else ClockText(0, 0, n)
  }

  /** The corrected dictionary branch agrees with the equivalent clock text. */
  lemma AmountAgreesWithClock(unit: string, n: nat)
    requires unit in {"hours", "minutes", "seconds"}
    ensures MinutesFromTimeDuration(Amount(unit, n)) == MinutesFromTimeDuration(Clock(ClockFor(unit, n)))
  {
    if unit == "hours" {
      ClockMinutes(n, 0, 0);
      assert ClockFor(unit, n) == ClockText(n, 0, 0);
      assert n as real * 60.0 + 0 as real + 0 as real / 60.0 == n as real * 60.0;
      assert MinutesFromTimeDuration(Amount(unit, n)) == Ok(n as real * 60.0);
    } else if unit == "minutes" {
      ClockMinutes(0, n, 0);
      assert ClockFor(unit, n) == ClockText(0, n, 0);
      assert MinutesFromTimeDuration(Amount(unit, n)) == Ok(n as real);
    } else {
      ClockMinutes(0, 0, n);
      assert ClockFor(unit, n) == ClockText(0, 0, n);
      assert MinutesFromTimeDuration(Amount(unit, n)) == Ok(n as real / 60.0);
    }
  }
}
