/** The parse tree the compiler consumes, one constructor per grammar
    production the transformer handles (hass-hgl-to-yaml.py lines 90-246).
    Tokens are kept as their source text. */
module Tree {

  import opened Wrappers

  /** The source position a rule node carries. */
  datatype Meta = Meta(line: nat, endLine: nat)

  /** `time_duration`: `H:MM:SS`, `MM:SS`, or a NUMBER and a unit word. */
  datatype DurationNode = HhMmSs(text: string) | MmSs(text: string) | Count(number: string, unit: string)

  datatype OffsetNode = OffsetNode(sign: string, duration: DurationNode)

  /** `time`: a clock literal, or a solar word with an optional offset. */
  datatype TimeNode = TimeLiteral(text: string) | TimeLogical(word: string, offset: Option<OffsetNode>)

  /** `with_attr_clause`: `*.ATTRIBUTE == value`. */
  datatype AttrClause = AttrClause(attribute: string, value: string)

  /** The ENTITY lists of `entity_disjunction`/`entity_conjunction` have at
      least two entries. */
  type EntityList = s: seq<string> | |s| >= 2 witness ["a", "b"]

  /** `entity_state` / `entity_state_condition`.  `MultipleState` stands for
      `multiple_entity_state`, which has no transformer callback. */
  datatype EntityStateNode =
    | SimpleState(entity: string, value: string, attributes: seq<AttrClause>)
    | MultipleState
    | Disjunction(entities: EntityList, value: string)
    | Conjunction(entities: EntityList, value: string)

  datatype ConditionBody = StateBody(state: EntityStateNode) | GlobalBody(symbol: string)

  /** `condition_clause`: the `while`/`when` keyword and its condition. */
  datatype ConditionNode = ConditionNode(keyword: string, body: ConditionBody)

  /** One argument of `service_params`: `*`, a `service_nvp`, or a
      BRACE_EXPANDED_ENTITY. */
  datatype ParamNode = StarParam | NvpParam(name: string, value: Option<string>) | EntityParam(text: string)

  /** `action`: a SERVICE_NAME and optional parameters. */
  datatype ActionNode = ActionNode(service: string, params: Option<seq<ParamNode>>)

  datatype ElseNode = ElseNode(value: string, forClause: Option<DurationNode>, action: ActionNode)

  datatype WithNode = WithEntity(entity: string) | WithState(state: EntityStateNode)

  /** The top-level rules.  `name` of a time range is the rule's source text,
      and `PowerOffAt` is named after the input file; both are supplied by the
      caller. */
  datatype Rule =
    | When(meta: Meta, state: EntityStateNode, forClause: Option<DurationNode>,
           condition: Option<ConditionNode>, action: ActionNode, elseClause: Option<ElseNode>)
    | WhenMqtt(meta: Meta, message: string, condition: Option<ConditionNode>, action: ActionNode)
    | WhenFires(meta: Meta, event: string, condition: Option<ConditionNode>, action: ActionNode)
    | WhenTemplate
    | PowerPair(entity: string, poweredBy: string)
    | PowerOffAt(time: TimeNode)
    | TimeRange(name: string, start: TimeNode, end: TimeNode, withClause: WithNode,
                startCondition: ConditionNode, startAction: ActionNode, endAction: ActionNode)
    | TopicDesignation(topic: string)
}
