/** The values the compiler passes around.  The source uses plain
    dictionaries; here every dictionary that travels between transformer
    callbacks is a `Fragment`, a map from the fixed key vocabulary to typed
    parts, and the nested trigger, condition and action dictionaries are
    records whose optional fields are the keys the source may or may not set.
    Keys whose names start with `_` in the source are marked transient. */
module Records {

  import opened Wrappers

  /** A `for` duration as `time_duration` returns it: clock text such as
      `00:05:00`, or a one-entry dictionary such as `{minutes: 5}`. */
  datatype Duration = Clock(text: string) | Amount(unit: string, count: int)

  /** The signed offset after a solar event, in minutes.  The source prints a
      Python float here; the model keeps the exact value. */
  datatype Offset = Offset(sign: string, minutes: real)

  /** A `value_template` text, or the solar template built by `time`, kept
      structured because its offset is a float. */
  datatype Template = Literal(text: string) | SunEvent(event: string, offset: Option<Offset>)

  /** The connective of a condis entity state: `a or b is v`, `a and b is v`. */
  datatype Connector = And | Or
  {
    function Word(): string
    {
      match this
      case And => "and"
      case Or => "or"
    }

    /** The De Morgan dual recorded for the else branch. */
    function Inverse(): Connector
    {
      match this
      case And => Or
      case Or => And
    }
  }

  /** `_else_value_template_args`: the inverse connective and the entities. */
  datatype CondisArgs = CondisArgs(connector: Connector, entities: seq<string>)

  /** A trigger dictionary.  `message` (`_message`), `expansions`
      (`_expansions`) and `entityWildcard` (`_entity_id_wc`) are transient. */
  datatype Trigger = Trigger(
    platform: string,
    entityId: Option<string>,
    toState: Option<string>,
    fromState: Option<string>,
    forDuration: Option<Duration>,
    valueTemplate: Option<Template>,
    topic: Option<string>,
    eventType: Option<string>,
    at: Option<string>,
    message: Option<string>,
    expansions: Option<seq<string>>,
    entityWildcard: Option<string>)
  {
    /** No transient entry is left. */
    predicate Clean()
    {
      message.None? && expansions.None? && entityWildcard.None?
    }
  }

  /** `{'platform': platform}` and nothing else. */
  function NewTrigger(platform: string): (t: Trigger)
    ensures t.platform == platform && t.Clean()
  {
    Trigger(platform, None, None, None, None, None, None, None, None, None, None, None)
  }

  /** A condition dictionary.  A state condition keeps the transient
      `_expansions`/`_entity_id_wc` of a brace-expanded entity; `attributes`
      is the attribute template that a `with *.attr == v` clause adds.  A
      template condition built from a condis entity state also keeps its
      transient `_else_value_template_args` and `_entity_summary`. */
  datatype Condition =
    | StateCondition(entityId: string, state: string, expansions: Option<seq<string>>,
                     entityWildcard: Option<string>, attributes: Option<string>)
    | TemplateCondition(valueTemplate: string, elseArgs: Option<CondisArgs>, summary: Option<string>)

  /** An action: one service call (`data` is absent when empty), or the
      three-step media composite `play_doorbird_media` expands to. */
  datatype Action =
    | Call(service: string, entityId: Option<string>, data: map<string, string>)
    | MediaSequence(entities: string, mediaContentId: string)

  /** `_else`: the else value, its optional `for` and its action. */
  datatype ElseClause = ElseClause(value: string, forDuration: Option<Duration>, action: Action)

  /** The keys a fragment may hold. */
  datatype Key =
    | TriggerKey | ConditionKey | ActionKey | ForKey
    | ExpansionsKey | ElseKey | ElseArgsKey | WhenOrWhileKey | EntitySummaryKey

  /** Keys written with a leading `_` in the source: not for emission. */
  predicate Transient(k: Key)
  {
    k in {ExpansionsKey, ElseKey, ElseArgsKey, WhenOrWhileKey, EntitySummaryKey}
  }

  datatype Part =
    | TriggerPart(trigger: Trigger)
    | TriggerListPart(triggers: seq<Trigger>)
    | ConditionPart(condition: Condition)
    | ActionPart(action: Action)
    | ForPart(duration: Duration)
    | ExpansionsPart(expansions: seq<string>)
    | ElsePart(clause: ElseClause)
    | ElseArgsPart(args: CondisArgs)
    | TextPart(text: string)

  /** A partial automation record, merged right-biased. */
  type Fragment = map<Key, Part>

  /** What `output_automation_rule` writes: the alias and the record's
      entries (the constant `hide_entity`/`initial_state` flags aside).
      The body type is a parameter so that the record stays a plain pair
      to the verifier; the compiler only writes `Record`s. */
  datatype Entry<Body> = Record(alias: string, body: Body)

  type Record = Entry<Fragment>

  /** No transient key at the top level, and a clean trigger. */
  predicate CleanBody(body: Fragment)
  {
    && (forall k :: k in body ==> !Transient(k))
    && (TriggerKey in body && body[TriggerKey].TriggerPart? ==> body[TriggerKey].trigger.Clean())
  }

  function TriggerOf(d: Fragment): Option<Trigger>
  {
    if TriggerKey in d && d[TriggerKey].TriggerPart? then Some(d[TriggerKey].trigger) else None
  }

  function ActionOf(d: Fragment): Option<Action>
  {
    if ActionKey in d && d[ActionKey].ActionPart? then Some(d[ActionKey].action) else None
  }

  function ConditionOf(d: Fragment): Option<Condition>
  {
    if ConditionKey in d && d[ConditionKey].ConditionPart? then Some(d[ConditionKey].condition) else None
  }

  function ExpansionsOf(d: Fragment): Option<seq<string>>
  {
    if ExpansionsKey in d && d[ExpansionsKey].ExpansionsPart? then Some(d[ExpansionsKey].expansions) else None
  }

  function TextOf(d: Fragment, k: Key): Option<string>
  {
    if k in d && d[k].TextPart? then Some(d[k].text) else None
  }
}
