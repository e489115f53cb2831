/** The transformer callbacks below the top-level rules
    (hass-hgl-to-yaml.py lines 508-891): token conversions, times and
    durations, conditions, entity states and actions.  Each turns the
    already-transformed children of one grammar node into the value or
    fragment the source returns. */
module Transforms {

  import opened Wrappers
  import opened Text
  import opened Merge
  import opened Records
  import opened Exceptions
  import opened Helpers
  import opened Braces
  import opened Tree

  /** The `HTTP_BASE_URL` default; the command-line override is not modelled. */
  const BaseUrl: string := "http://localhost:8123"

  /** The stream the `play_doorbird_media` composite plays; `*` stands for
      the camera and is expanded by `when_fires`. */
  const MediaContentId: string :=
    BaseUrl + "/api/camera_proxy_stream/camera.*_live?token={{states.camera.*_live.attributes.access_token}}"

  // ---------------------------------------------------------------- tokens

  /** What BRACE_EXPANDED_WORD returns: `_word` and `_expansions`. */
  datatype WordToken = WordToken(word: string, expansions: Option<seq<string>>)

  /** BRACE_EXPANDED_WORD: a brace template becomes `*`, and its
      expansions are recorded. */
  function BraceExpandedWord(text: string, expand: Expander): (r: WordToken)
    ensures BraceSpan(text).None? ==> r == WordToken(text, None)
    ensures BraceSpan(text).Some? ==>
              var (i, j) := BraceSpan(text).value;
              && r.word == Wildcarded(text, i, j)
              && r.expansions == Some(expand(text[i..j + 1]))
              && '*' in r.word && |r.expansions.value| > 0
  {
    match BraceSpan(text)
    case None => WordToken(text, None)
    case Some((i, j)) => WordToken(Wildcarded(text, i, j), Some(expand(text[i..j + 1])))
  }

  /** What BRACE_EXPANDED_ENTITY returns: `entity_id`, and with a template
      also `_expansions` and `_entity_id_wc`. */
  datatype EntityToken = EntityToken(entityId: string, expansions: Option<seq<string>>, entityWildcard: Option<string>)

  /** BRACE_EXPANDED_ENTITY: with a template, `entity_id` lists every
      expansion of the whole token and `_entity_id_wc` holds the token with
      the template replaced by `*`. */
  function BraceExpandedEntity(text: string, expand: Expander): (r: EntityToken)
    ensures BraceSpan(text).None? ==> r == EntityToken(text, None, None)
    ensures BraceSpan(text).Some? ==>
              var (i, j) := BraceSpan(text).value;
              && r.entityId == Join(",", expand(text))
              && r.expansions == Some(expand(text[i..j + 1]))
              && r.entityWildcard == Some(Wildcarded(text, i, j))
              && '*' in r.entityWildcard.value
  {
    match BraceSpan(text)
    case None => EntityToken(text, None, None)
    case Some((i, j)) =>
      EntityToken(Join(",", expand(text)), Some(expand(text[i..j + 1])), Some(Wildcarded(text, i, j)))
  }

  /** What SERVICE_NAME returns: the plain name, or a dictionary with
      `_service` and `_expansions` when the name holds a brace template. */
  datatype ServiceToken = PlainService(name: string) | TemplatedService(service: string, expansions: seq<string>)

  function ServiceName(text: string, expand: Expander): (r: ServiceToken)
    ensures r.PlainService? <==> BraceSpan(text).None?
    ensures r.PlainService? ==> r.name == text
  {
    match BraceSpan(text)
    case None => PlainService(text)
    case Some((i, j)) => TemplatedService(Wildcarded(text, i, j), expand(text[i..j + 1]))
  }

  // ------------------------------------------------------ times and durations

  /** MM_SS: an implicit zero hour field is prefixed. */
  function MmSs(text: string): string
  {
    "00:" + text
  }

  /** The clock text `m:s` for two counts. */
  function MinSecText(m: nat, s: nat): string
  {
    NatToString(m) + ":" + NatToString(s)
  }

  /** Padding a `M:S` clock adds a zero hour field and keeps its minutes. */
  lemma MmSsKeepsMinutes(m: nat, s: nat)
    ensures MinutesFromClock(MmSs(MinSecText(m, s))) == MinutesFromClock(MinSecText(m, s))
            == Ok(m as real + s as real / 60.0)
  {
    var ms, ss := NatToString(m), NatToString(s);
    SplitPair(m, s);
    ParsePrinted(m);
    ParsePrinted(s);
    TwoParts(ms, ss, m, s);
    ZeroDigits();
    ThreeParts("00", ms, ss, 0, m, s);
  }

  lemma ZeroDigits()
    ensures IsDigits("00") && DigitsValue("00") == 0
  {
    assert "00"[..1] == "0";
  }

  /** A printed `m:s` clock splits into its two numbers, and padded into
      three. */
  lemma SplitPair(m: nat, s: nat)
    ensures Split(MinSecText(m, s), ':') == [NatToString(m), NatToString(s)]
    ensures Split(MmSs(MinSecText(m, s)), ':') == ["00", NatToString(m), NatToString(s)]
  {
    var ms, ss := NatToString(m), NatToString(s);
    assert ':' !in ms && ':' !in ss;
    SplitNoSeparator(ss, ':');
    assert MinSecText(m, s) == ms + [':'] + ss;
    SplitAppend(ms, ':', ss);
    assert MmSs(MinSecText(m, s)) == "00" + [':'] + (ms + [':'] + ss);
    SplitAppend("00", ':', ms + [':'] + ss);
  }

  lemma TwoParts(a: string, b: string, x: nat, y: nat)
    requires IsDigits(a) && IsDigits(b) && DigitsValue(a) == x && DigitsValue(b) == y
    ensures MinutesFromParts([a, b]) == Ok(x as real + y as real / 60.0)
  {
    var parts := [a, b];
    assert AllDigits(parts);
    var vs := Values(parts);
    assert vs[0] == DigitsValue(parts[0]) as real == x as real;
    assert vs[1] == DigitsValue(parts[1]) as real == y as real;
  }

  /** NUMBER: `int(lexeme)`; a fractional lexeme raises ValueError. */
  function Number(text: string): (r: Result<int>)
    ensures r.Ok? <==> IsDigits(text)
    ensures r.Ok? ==> r.value == DigitsValue(text)
  {
    match ParseInt(text)
    case Some(n) => Ok(n)
    case None => Err(NotAnInteger)
  }

  /** `time_duration` with its HH_MM_SS, MM_SS and NUMBER children. */
  function TimeDuration(node: DurationNode): (r: Result<Duration>)
    ensures node.HhMmSs? ==> r == Ok(Clock(node.text))
    ensures node.MmSs? ==> r == Ok(Clock("00:" + node.text))
    ensures node.Count? ==> (r.Ok? <==> IsDigits(node.number))
    ensures node.Count? && r.Ok? ==> r.value == Amount(node.unit, DigitsValue(node.number))
  {
    match node
    case HhMmSs(text) => Ok(Clock(text))
    case MmSs(text) => Ok(Clock(MmSs(text)))
    case Count(number, unit) =>
      var n :- Number(number);
      Ok(Amount(unit, n))
  }

  /** TIME_LOGICAL: `solar_noon`, `sunrise`, `sunset` fold into `noon`,
      `rising`, `setting`; every other word is kept. */
  function TimeLogical(word: string): (r: string)
    ensures r != "solar_noon" && r != "sunrise" && r != "sunset"
    ensures word != "solar_noon" && word != "sunrise" && word != "sunset" ==> r == word
  {
    if word == "solar_noon" then "noon"
    else if word == "sunrise" then "rising"
    else if word == "sunset" then "setting"
    else word
  }

  /** Folding twice is folding once. */
  lemma TimeLogicalIdempotent(word: string)
    ensures TimeLogical(TimeLogical(word)) == TimeLogical(word)
  {
  }

  /** `time`: a clock literal gives a `time` trigger at that time; a solar
      word gives a template trigger on the folded event, with the offset
      turned into minutes. */
  function Time(node: TimeNode): (r: Result<Trigger>)
    ensures node.TimeLiteral? ==> r == Ok(NewTrigger("time").(at := Some(node.text)))
    ensures node.TimeLogical? && r.Ok? ==>
              && r.value.platform == "template" && r.value.Clean()
              && r.value.valueTemplate.Some? && r.value.valueTemplate.value.SunEvent?
              && r.value.valueTemplate.value.event == TimeLogical(node.word)
              && (r.value.valueTemplate.value.offset.Some? <==> node.offset.Some?)
    ensures node.TimeLogical? && node.offset.None? ==> r.Ok?
    ensures node.TimeLogical? && node.offset.Some? ==>
              var OffsetNode(sign, dur) := node.offset.value;
              && (r.Ok? <==> TimeDuration(dur).Ok? && MinutesFromTimeDuration(TimeDuration(dur).value).Ok?)
              && (r.Ok? ==> r.value.valueTemplate.value.offset
                            == Some(Offset(sign, MinutesFromTimeDuration(TimeDuration(dur).value).value)))
  {
    match node
    case TimeLiteral(text) => Ok(NewTrigger("time").(at := Some(text)))
    case TimeLogical(word, offset) =>
      var event := TimeLogical(word);
      match offset
      case None => Ok(NewTrigger("template").(valueTemplate := Some(SunEvent(event, None))))
      case Some(OffsetNode(sign, dur)) =>
        var d :- TimeDuration(dur);
        var minutes :- MinutesFromTimeDuration(d);
        Ok(NewTrigger("template").(valueTemplate := Some(SunEvent(event, Some(Offset(sign, minutes))))))
  }

  // ---------------------------------------------------------------- conditions

  /** GLOBAL_STATE: `sunny` and `cloudy` have fixed weather templates; any
      other symbol reads a sensor of that name. */
  const SunnyTemplate: string :=
    "{{ is_state(\"sensor.weather_conditions\", \"Clear\") or is_state(\"sensor.weather_conditions\", \"Partly Cloudy\") }}"
  const CloudyTemplate: string :=
    "{{ is_state(\"sensor.weather_conditions\", \"Cloudy\") or is_state(\"sensor.weather_conditions\", \"Rainy\") }}"

  function GlobalState(symbol: string): (r: Condition)
    ensures r.TemplateCondition? && r.elseArgs.None? && r.summary.None?
    ensures symbol != "sunny" && symbol != "cloudy" ==>
              r.valueTemplate == "{{ states(\"" + symbol + "\") == \"1.0\" }}"
  {
    if symbol == "sunny" then
      TemplateCondition(SunnyTemplate, None, None)
    else if symbol == "cloudy" then
      TemplateCondition(CloudyTemplate, None, None)
    else
      TemplateCondition("{{ states(\"" + symbol + "\") == \"1.0\" }}", None, None)
  }

  /** One attribute test of a `with *.attr == v` clause. */
  function AttributeTest(entity: string, a: AttrClause): string
  {
    "states." + entity + ".attributes[\"" + a.attribute + "\"] == \"" + a.value + "\""
  }

  function AttributeTests(entity: string, attrs: seq<AttrClause>): (r: seq<string>)
    ensures |r| == |attrs|
    ensures forall k :: 0 <= k < |r| ==> r[k] == AttributeTest(entity, attrs[k])
  {
    seq(|attrs|, k requires 0 <= k < |attrs| => AttributeTest(entity, attrs[k]))
  }

  /** What `simple_entity_state` returns: the entity token, `to`, and the
      `_condition` template over the attribute clauses. */
  datatype SimpleStateValue = SimpleStateValue(entity: EntityToken, to: string, attributes: Option<string>)

  /** `simple_entity_state`: the attribute tests, if any, joined by `and`
      and read off the entity as written (before sensor defaulting). */
  function SimpleEntityState(entity: EntityToken, value: string, attrs: seq<AttrClause>): (r: SimpleStateValue)
    ensures r.entity == entity && r.to == value
    ensures r.attributes.Some? <==> |attrs| > 0
    ensures r.attributes.Some? ==>
              r.attributes.value == "{{ " + Join(" and ", AttributeTests(entity.entityId, attrs)) + " }}"
  {
    var attributes :=
      if |attrs| > 0 then Some("{{ " + Join(" and ", AttributeTests(entity.entityId, attrs)) + " }}")
      else None;
    SimpleStateValue(entity, value, attributes)
  }

  /** `entity_disjunction` / `entity_conjunction`: each entity gets the
      `sensor` domain when it has none. */
  function SensorEntities(entities: seq<string>): (r: seq<string>)
    ensures |r| == |entities|
    ensures forall k :: 0 <= k < |r| ==> r[k] == ServiceDefault("sensor", entities[k]) && '.' in r[k]
  {
    seq(|entities|, k requires 0 <= k < |entities| => ServiceDefault("sensor", entities[k]))
  }

  /** The `entity_id` `entity_state` passes on: defaulted to `sensor`
      unless empty. */
  function SensorEntity(entityId: string): string
  {
    if entityId != "" then ServiceDefault("sensor", entityId) else entityId
  }

  /** The state trigger of a simple entity state. */
  function StateTrigger(s: SimpleStateValue): (t: Trigger)
    ensures t.platform == "state" && t.toState == Some(s.to)
    ensures t.entityId == Some(SensorEntity(s.entity.entityId))
    ensures t.expansions == s.entity.expansions && t.entityWildcard == s.entity.entityWildcard
  {
    NewTrigger("state").(entityId := Some(SensorEntity(s.entity.entityId)), toState := Some(s.to),
                         expansions := s.entity.expansions, entityWildcard := s.entity.entityWildcard)
  }

  /** The condis branch of `entity_state`: a template trigger over the
      entities, the dual connective recorded for the else branch, and a
      summary. */
  function CondisTrigger(connector: Connector, entities: seq<string>, value: string): (f: Fragment)
    ensures f.Keys == {TriggerKey, ElseArgsKey, EntitySummaryKey}
    ensures TriggerOf(f) == Some(NewTrigger("template").(valueTemplate := Some(Literal(TemplateFromCondis(connector, entities, value)))))
    ensures f[ElseArgsKey] == ElseArgsPart(CondisArgs(connector.Inverse(), entities))
  {
    map[TriggerKey := TriggerPart(NewTrigger("template").(valueTemplate := Some(Literal(TemplateFromCondis(connector, entities, value))))),
        ElseArgsKey := ElseArgsPart(CondisArgs(connector.Inverse(), entities)),
        EntitySummaryKey := TextPart(Join(",", entities) + " is " + value)]
  }

  /** `entity_state`: the trigger-side fragment of a `when` rule. */
  function EntityState(node: EntityStateNode, expand: Expander): (r: Result<Fragment>)
    ensures r.Err? <==> node.MultipleState?
    ensures r.Ok? ==> TriggerKey in r.value && TriggerOf(r.value).Some?
    ensures r.Ok? ==> r.value.Keys <= {TriggerKey, ConditionKey, ElseArgsKey, EntitySummaryKey}
    ensures node.SimpleState? ==>
              r.Ok? && ElseArgsKey !in r.value && (ConditionKey in r.value <==> |node.attributes| > 0)
  {
    match node
    case SimpleState(entity, value, attrs) =>
      var s := SimpleEntityState(BraceExpandedEntity(entity, expand), value, attrs);
      var trigger := map[TriggerKey := TriggerPart(StateTrigger(s))];
      if s.attributes.Some? then
        Ok(trigger[ConditionKey := ConditionPart(TemplateCondition(s.attributes.value, None, None))])
      else Ok(trigger)
    case MultipleState => Err(UntransformedTree)
    case Disjunction(entities, value) => Ok(CondisTrigger(Or, SensorEntities(entities), value))
    case Conjunction(entities, value) => Ok(CondisTrigger(And, SensorEntities(entities), value))
  }

  /** An `or` condis trigger records `and` for its else branch and an `and`
      trigger records `or`, over the same sensor-defaulted entities. */
  lemma CondisRecordsDual(node: EntityStateNode, expand: Expander)
    requires node.Disjunction? || node.Conjunction?
    ensures EntityState(node, expand).Ok?
    ensures var f := EntityState(node, expand).value;
            var c := if node.Disjunction? then Or else And;
            && f[ElseArgsKey] == ElseArgsPart(CondisArgs(c.Inverse(), SensorEntities(node.entities)))
            && TriggerOf(f).value.valueTemplate
               == Some(Literal(TemplateFromCondis(c, SensorEntities(node.entities), node.value)))
  {
  }

  /** `entity_state_condition` as written: for a simple state with an
      attribute clause, line 817 pops `_condition` and line 818 reads it
      again, which raises KeyError. */
  function EntityStateConditionAsWritten(node: EntityStateNode, expand: Expander): Result<Condition>
  {
    match node
    case SimpleState(entity, value, attrs) =>
      var s := SimpleEntityState(BraceExpandedEntity(entity, expand), value, attrs);
      if s.attributes.Some? then Err(ConditionPopped)
      else Ok(StateCondition(SensorEntity(s.entity.entityId), s.to, s.entity.expansions, s.entity.entityWildcard, None))
    case MultipleState => Err(UntransformedTree)
    case Disjunction(entities, value) => Ok(CondisCondition(Or, SensorEntities(entities), value))
    case Conjunction(entities, value) => Ok(CondisCondition(And, SensorEntities(entities), value))
  }

  /** The condis branch of `entity_state_condition`.  Its transient
      `_else_value_template_args` and `_entity_summary` stay in the
      condition dictionary. */
  function CondisCondition(connector: Connector, entities: seq<string>, value: string): Condition
  {
    TemplateCondition(TemplateFromCondis(connector, entities, value),
                      Some(CondisArgs(connector.Inverse(), entities)),
                      Some(Join(",", entities) + " is " + value))
  }

  /** `entity_state_condition` with lines 817-818 as evidently intended:
      the popped attribute condition is placed under `condition`. */
  function EntityStateCondition(node: EntityStateNode, expand: Expander): (r: Result<Condition>)
    ensures r.Err? <==> node.MultipleState?
    ensures node.SimpleState? ==>
              && r.value.StateCondition? && r.value.state == node.value
              && (r.value.attributes.Some? <==> |node.attributes| > 0)
    ensures EntityStateConditionAsWritten(node, expand).Ok? ==> r == EntityStateConditionAsWritten(node, expand)
  {
    match node
    case SimpleState(entity, value, attrs) =>
      var s := SimpleEntityState(BraceExpandedEntity(entity, expand), value, attrs);
      Ok(StateCondition(SensorEntity(s.entity.entityId), s.to, s.entity.expansions, s.entity.entityWildcard, s.attributes))
    case MultipleState => Err(UntransformedTree)
    case Disjunction(entities, value) => Ok(CondisCondition(Or, SensorEntities(entities), value))
    case Conjunction(entities, value) => Ok(CondisCondition(And, SensorEntities(entities), value))
  }

  /** Counterexample: any attribute clause in a state condition, such as
      `motion is on with *.battery == low`, fails as written, and keeps its
      attribute test once fixed. */
  lemma AttributeConditionRaises(entity: string, value: string, attrs: seq<AttrClause>, expand: Expander)
    requires |attrs| > 0
    ensures EntityStateConditionAsWritten(SimpleState(entity, value, attrs), expand).Err?
    ensures var c := EntityStateCondition(SimpleState(entity, value, attrs), expand);
            c.Ok? && c.value.attributes
            == Some("{{ " + Join(" and ", AttributeTests(BraceExpandedEntity(entity, expand).entityId, attrs)) + " }}")
  {
  }

  /** `condition_clause`: the condition and the `while`/`when` keyword. */
  function ConditionClause(node: ConditionNode, expand: Expander): (r: Result<Fragment>)
    ensures r.Ok? ==> r.value.Keys == {ConditionKey, WhenOrWhileKey}
    ensures r.Ok? ==> TextOf(r.value, WhenOrWhileKey) == Some(node.keyword) && ConditionOf(r.value).Some?
    ensures r.Err? <==> node.body.StateBody? && node.body.state.MultipleState?
  {
    match node.body
    case StateBody(state) =>
      var condition :- EntityStateCondition(state, expand);
      Ok(ConditionFragment(condition, node.keyword))
    case GlobalBody(symbol) => Ok(ConditionFragment(GlobalState(symbol), node.keyword))
  }

  /** The dictionary `condition_clause` returns. */
  function ConditionFragment(condition: Condition, keyword: string): (f: Fragment)
    ensures f.Keys == {ConditionKey, WhenOrWhileKey}
    ensures TextOf(f, WhenOrWhileKey) == Some(keyword) && ConditionOf(f) == Some(condition)
  {
    map[ConditionKey := ConditionPart(condition), WhenOrWhileKey := TextPart(keyword)]
  }

  // ------------------------------------------------------------------ actions

  /** A transformed `service_params` argument: `*` or a bare name (a
      string), a `name=value` pair, or a BRACE_EXPANDED_ENTITY dictionary. */
  datatype ParamValue = Positional(text: string) | Pair(name: string, value: string) | EntityValue(token: EntityToken)

  /** `service_nvp` (and the `*` token, and BRACE_EXPANDED_ENTITY). */
  function ParamValueOf(node: ParamNode, expand: Expander): ParamValue
  {
    match node
    case StarParam => Positional("*")
    case NvpParam(name, None) => Positional(name)
    case NvpParam(name, Some(v)) => Pair(name, v)
    case EntityParam(text) => EntityValue(BraceExpandedEntity(text, expand))
  }

  /** The entity an argument contributes, if it is one: a string, or a
      dictionary with a non-empty `entity_id`. */
  function EntityOfParam(p: ParamValue): Option<string>
  {
    match p
    case Positional(text) => Some(text)
    case Pair(name, value) => if name == "entity_id" && value != "" then Some(value) else None
    case EntityValue(token) => if token.entityId != "" then Some(token.entityId) else None
  }

  /** The dictionary an argument merges into `data` (empty for entities).
      An entity dictionary with an empty `entity_id` merges that entry; its
      transient `_expansions`/`_entity_id_wc` are not carried. */
  function DataOfParam(p: ParamValue): map<string, string>
  {
    if EntityOfParam(p).Some? then map[]
    else
      match p
      case Positional(_) => map[]
      case Pair(name, value) => map[name := value]
      case EntityValue(token) => map["entity_id" := token.entityId]
  }

  /** The entities of the arguments, in order. */
  function ParamEntities(ps: seq<ParamValue>): (r: seq<string>)
    ensures |r| <= |ps|
    decreases |ps|
  {
    if |ps| == 0 then []
    else
      var last := EntityOfParam(ps[|ps| - 1]);
      ParamEntities(ps[..|ps| - 1]) + (if last.Some? then [last.value] else [])
  }

  function ParamDicts(ps: seq<ParamValue>): (r: seq<map<string, string>>)
    ensures |r| == |ps| && forall k :: 0 <= k < |ps| ==> r[k] == DataOfParam(ps[k])
  {
    seq(|ps|, k requires 0 <= k < |ps| => DataOfParam(ps[k]))
  }

  /** What `service_params` returns: `entity_id` when some entity was
      given, `data` when some pair was. */
  datatype Params = Params(entityId: Option<string>, data: map<string, string>)

  /** The value `service_params` computes. */
  function ParamsOf(ps: seq<ParamValue>): Params
  {
    var entities := ParamEntities(ps);
    Params(if |entities| > 0 then Some(Join(",", entities)) else None, MergedAll(ParamDicts(ps)))
  }

  /** `service_params`: entities are collected in order and comma-joined;
      the other pairs are merged, the later one winning. */
  method ServiceParams(ps: seq<ParamValue>) returns (p: Params)
    ensures p == ParamsOf(ps)
  {
    var entities: seq<string> := [];
    var others: map<string, string> := map[];
    for i := 0 to |ps|
      invariant entities == ParamEntities(ps[..i])
      invariant others == MergedAll(ParamDicts(ps[..i]))
    {
      ParamsStep(ps, i);
      var a := ps[i];
      match a {
        case Positional(text) =>
          entities := entities + [text];
        case Pair(name, value) =>
          if name == "entity_id" && value != "" {
            entities := entities + [value];
          } else {
            others := Merge.Merge(others, map[name := value]);
          }
        case EntityValue(token) =>
          if token.entityId != "" {
            entities := entities + [token.entityId];
          } else {
            others := Merge.Merge(others, map["entity_id" := token.entityId]);
          }
      }
    }
    assert ps[..|ps|] == ps;
    p := Params(if |entities| > 0 then Some(Join(",", entities)) else None, others);
  }

  /** One more argument extends the entities by its entity and merges its
      dictionary into the others. */
  lemma ParamsStep(ps: seq<ParamValue>, i: nat)
    requires i < |ps|
    ensures var e := EntityOfParam(ps[i]);
            ParamEntities(ps[..i + 1]) == ParamEntities(ps[..i]) + (if e.Some? then [e.value] else [])
    ensures MergedAll(ParamDicts(ps[..i + 1])) == Merge.Merge(MergedAll(ParamDicts(ps[..i])), DataOfParam(ps[i]))
  {
    assert ps[..i + 1][..i] == ps[..i];
    assert ParamDicts(ps[..i + 1]) == ParamDicts(ps[..i]) + [DataOfParam(ps[i])];
    MergedAllSnoc(ParamDicts(ps[..i]), DataOfParam(ps[i]));
  }

  /** `entity_id` is present exactly when some argument is an entity. */
  lemma {:induction false} ParamsEntityPresent(ps: seq<ParamValue>)
    ensures ParamsOf(ps).entityId.Some? <==> exists k :: 0 <= k < |ps| && EntityOfParam(ps[k]).Some?
    decreases |ps|
  {
    if |ps| > 0 {
      ParamsEntityPresent(ps[..|ps| - 1]);
      var init := ps[..|ps| - 1];
      if exists k :: 0 <= k < |init| && EntityOfParam(init[k]).Some? {
        var k :| 0 <= k < |init| && EntityOfParam(init[k]).Some?;
        assert ps[k] == init[k];
      }
      if exists k :: 0 <= k < |ps| && EntityOfParam(ps[k]).Some? {
        var k :| 0 <= k < |ps| && EntityOfParam(ps[k]).Some?;
        if k < |init| {
          assert init[k] == ps[k];
        }
      }
    }
  }

  /** A `data` key comes from the last pair that names it. */
  lemma ParamsDataLast(ps: seq<ParamValue>, i: nat, name: string)
    requires i < |ps| && name in DataOfParam(ps[i])
    requires forall j :: i < j < |ps| ==> name !in DataOfParam(ps[j])
    ensures name in ParamsOf(ps).data && ParamsOf(ps).data[name] == DataOfParam(ps[i])[name]
  {
    MergedAllLast(ParamDicts(ps), i, name);
  }

  /** The entities of `play_doorbird_media`, each defaulted to `media_player`. */
  function MediaEntities(entityIds: string): string
  {
    var parts := Split(entityIds, ',');
    Join(",", seq(|parts|, k requires 0 <= k < |parts| => ServiceDefault("media_player", parts[k])))
  }

  /** `action`: a service call with its parameters, or the three-step media
      composite for `play_doorbird_media`. */
  function ActionValue(node: ActionNode, expand: Expander): (r: Result<Action>)
    ensures BraceSpan(node.service).Some? ==> r.Err?
    ensures r.Ok? && node.service != "play_doorbird_media" ==>
              && r.value.Call? && r.value.service == node.service
              && (node.params.None? ==> r.value.entityId.None? && r.value.data == map[])
              && (node.params.Some? ==> r.value.entityId == ParamsOf(ParamValues(node.params.value, expand)).entityId
                                        && r.value.data == ParamsOf(ParamValues(node.params.value, expand)).data)
    ensures BraceSpan(node.service).None? && node.service != "play_doorbird_media" ==> r.Ok?
    ensures node.service == "play_doorbird_media" ==>
              (r.Ok? <==> node.params.Some? && ParamsOf(ParamValues(node.params.value, expand)).entityId.Some?)
    ensures r.Ok? && node.service == "play_doorbird_media" ==>
              && r.value.MediaSequence? && r.value.mediaContentId == MediaContentId
              && r.value.entities == MediaEntities(ParamsOf(ParamValues(node.params.value, expand)).entityId.value)
  {
    MediaNamePlain();
    match ServiceName(node.service, expand)
    case TemplatedService(_, _) =>
      Err(TemplatedServiceName)
    case PlainService(name) =>
      if name == "play_doorbird_media" then
        if node.params.None? then Err(NoMediaEntity)
        else MediaAction(ParamsOf(ParamValues(node.params.value, expand)))
      else Ok(CallAction(name, node.params, expand))
  }

  /** The composite's name holds no brace template. */
  lemma MediaNamePlain()
    ensures BraceSpan("play_doorbird_media").None?
  {
    assert '{' !in "play_doorbird_media";
  }

  /** The composite of `play_doorbird_media`; it needs an entity. */
  function MediaAction(p: Params): (r: Result<Action>)
    ensures r.Ok? <==> p.entityId.Some?
    ensures r.Ok? ==> r.value == MediaSequence(MediaEntities(p.entityId.value), MediaContentId)
  {
    if p.entityId.None? then Err(NoEntityId)
    else Ok(MediaSequence(MediaEntities(p.entityId.value), MediaContentId))
  }

  /** A plain service call with its parameters merged in. */
  function CallAction(name: string, params: Option<seq<ParamNode>>, expand: Expander): (a: Action)
    ensures a.Call? && a.service == name
    ensures params.None? ==> a.entityId.None? && a.data == map[]
    ensures params.Some? ==> a.entityId == ParamsOf(ParamValues(params.value, expand)).entityId
                             && a.data == ParamsOf(ParamValues(params.value, expand)).data
  {
    if params.Some? then
      var p := ParamsOf(ParamValues(params.value, expand));
      Call(name, p.entityId, p.data)
    else Call(name, None, map[])
  }

  function ParamValues(nodes: seq<ParamNode>, expand: Expander): (r: seq<ParamValue>)
    ensures |r| == |nodes| && forall k :: 0 <= k < |r| ==> r[k] == ParamValueOf(nodes[k], expand)
  {
    seq(|nodes|, k requires 0 <= k < |nodes| => ParamValueOf(nodes[k], expand))
  }

  /** The fragment `action` returns: `{'action': ...}`. */
  function ActionFragment(node: ActionNode, expand: Expander): (r: Result<Fragment>)
    ensures r.Ok? <==> ActionValue(node, expand).Ok?
    ensures r.Ok? ==> r.value == map[ActionKey := ActionPart(ActionValue(node, expand).value)]
    ensures r.Ok? ==> r.value.Keys == {ActionKey}
  {
    var a :- ActionValue(node, expand);
    Ok(map[ActionKey := ActionPart(a)])
  }

  // ------------------------------------------------------- other fragments

  /** `for_clause`. */
  function ForClause(node: DurationNode): (r: Result<Fragment>)
    ensures r.Ok? ==> r.value.Keys == {ForKey}
  {
    var d :- TimeDuration(node);
    Ok(map[ForKey := ForPart(d)])
  }

  /** An optional `for_clause` duration. */
  function OptionalDuration(node: Option<DurationNode>): (r: Result<Option<Duration>>)
    ensures node.None? ==> r == Ok(None)
    ensures node.Some? ==> (r.Ok? <==> TimeDuration(node.value).Ok?)
  {
    if node.None? then Ok(None)
    else
      var d :- TimeDuration(node.value);
      Ok(Some(d))
  }

  /** `else_clause`: the else value, its optional duration and its action. */
  function ElseClauseFragment(node: ElseNode, expand: Expander): (r: Result<Fragment>)
    ensures r.Ok? <==> OptionalDuration(node.forClause).Ok? && ActionValue(node.action, expand).Ok?
    ensures r.Ok? ==> r.value.Keys == {ElseKey}
    ensures r.Ok? ==> r.value[ElseKey] == ElsePart(ElseClause(node.value, OptionalDuration(node.forClause).value,
                                                              ActionValue(node.action, expand).value))
  {
    var d :- OptionalDuration(node.forClause);
    var a :- ActionValue(node.action, expand);
    Ok(map[ElseKey := ElsePart(ElseClause(node.value, d, a))])
  }

  /** `mqtt_message`: an MQTT trigger on the ambient topic, the message
      kept as the transient `_message`.  (The source also sets `condition`
      to None here; `when_mqtt` always overwrites it.) */
  function MqttMessage(text: string, topic: string, expand: Expander): (f: Fragment)
    ensures TriggerOf(f).Some? && TriggerOf(f).value.topic == Some(topic)
    ensures TriggerOf(f).value.message == Some(BraceExpandedWord(text, expand).word)
    ensures f.Keys <= {TriggerKey, ExpansionsKey}
    ensures ExpansionsOf(f) == BraceExpandedWord(text, expand).expansions
  {
    var tok := BraceExpandedWord(text, expand);
    var trigger := map[TriggerKey := TriggerPart(NewTrigger("mqtt").(topic := Some(topic), message := Some(tok.word)))];
    if tok.expansions.Some? then trigger[ExpansionsKey := ExpansionsPart(tok.expansions.value)] else trigger
  }

  /** `event`: an event trigger on the (wildcarded) event name. */
  function Event(text: string, expand: Expander): (f: Fragment)
    ensures TriggerOf(f).Some? && TriggerOf(f).value.eventType == Some(BraceExpandedWord(text, expand).word)
    ensures f.Keys <= {TriggerKey, ExpansionsKey}
    ensures ExpansionsOf(f) == BraceExpandedWord(text, expand).expansions
  {
    var tok := BraceExpandedWord(text, expand);
    var trigger := map[TriggerKey := TriggerPart(NewTrigger("event").(eventType := Some(tok.word)))];
    if tok.expansions.Some? then trigger[ExpansionsKey := ExpansionsPart(tok.expansions.value)] else trigger
  }

  /** `with_clause`: a bare entity, or the `entity_id` of a transformed
      entity state, which has none at its top level. */
  function WithClause(node: WithNode, expand: Expander): (r: Result<Option<string>>)
    ensures node.WithEntity? ==> r == Ok(Some(node.entity))
    ensures node.WithState? ==> (r.Ok? <==> !node.state.MultipleState?) && (r.Ok? ==> r.value.None?)
  {
    match node
    case WithEntity(entity) => Ok(Some(entity))
    case WithState(state) =>
      var f :- EntityState(state, expand);
      Ok(None)
  }
}
