/** The `HassOutputter` transformer as a whole (hass-hgl-to-yaml.py lines
    307-505): a compiler object holding the ambient MQTT topic, the switches
    paired so far and the records written, which handles the top-level
    rules one after another.  `Run` states, rule by rule, what a whole
    input produces; the class's methods are proved to follow it. */
module Compiler {

  import opened Wrappers
  import opened Exceptions
  import opened Text
  import opened Merge
  import opened Records
  import opened Helpers
  import opened Braces
  import opened Tree
  import opened Transforms
  import opened Rules

  /** The topic in force before any `mqtt_topic_designation`. */
  const InitialTopic: string := "vantage/misc"

  /** The running context: the ambient topic, the switches paired so far,
      the records written, and the exception that stopped the run, if
      any. */
  datatype Context = Context(topic: string, power: seq<string>, out: seq<Record>, failure: Option<Exception>)

  /** What the rules write: the records a rule writes in the context it
      runs in, or the exception it raises before writing any.  The lemmas
      about the running context hold whatever the rules write. */
  type Writer = (Context, Rule) -> Result<seq<Record>>

  /** The records the transformer writes for one rule; a designation and
      `when_template` write none. */
  function RuleRecords(c: Context, r: Rule, expand: Expander, inputName: string): Result<seq<Record>>
  {
    match r
    case TopicDesignation(_) => Ok([])
    case When(_, _, _, _, _, _) => WhenRecords(r, expand)
    case WhenMqtt(_, _, _, _) => WhenMqttRecords(r, c.topic, expand)
    case WhenFires(_, _, _, _) => WhenFiresRecords(r, expand)
    case WhenTemplate => Ok([])
    case PowerPair(entity, poweredBy) => Ok(PowerPairRecords(entity, poweredBy, expand))
    case PowerOffAt(time) => PowerOffAtRecords(time, inputName, c.power)
    case TimeRange(_, _, _, _, _, _, _) => TimeRangeRecords(r, expand)
  }

  /** The transformer's writer. */
  function Transformer(expand: Expander, inputName: string): Writer
  {
    (c: Context, r: Rule) => RuleRecords(c, r, expand, inputName)
  }

  /** One top-level rule that writes `written`: a designation sets the
      topic, a pairing rule adds its switch, and an exception stops the
      run with nothing written. */
  function Step(c: Context, r: Rule, written: Result<seq<Record>>, expand: Expander): (n: Context)
    ensures c.failure.Some? ==> n == c
    ensures c.out <= n.out
    ensures c.failure.None? && written.Err? ==> n == c.(failure := Some(written.error))
  {
    if c.failure.Some? then c
    else
      match written
      case Err(e) => c.(failure := Some(e))
      case Ok(rs) =>
        Context(if r.TopicDesignation? then r.topic else c.topic,
                if r.PowerPair? then c.power + [PoweredBy(r.poweredBy, expand)] else c.power,
                c.out + rs,
                None)
  }

  /** The rules in order, from a context. */
  function Run(c: Context, rules: seq<Rule>, write: Writer, expand: Expander): Context
    decreases |rules|
  {
    if |rules| == 0 then c
    else
      var prev := Run(c, rules[..|rules| - 1], write, expand);
      Step(prev, rules[|rules| - 1], write(prev, rules[|rules| - 1]), expand)
  }

  /** The `switch`-defaulted entities of the pairing rules, in order. */
  function PowerSwitches(rules: seq<Rule>, expand: Expander): seq<string>
    decreases |rules|
  {
    if |rules| == 0 then []
    else
      var last := rules[|rules| - 1];
      PowerSwitches(rules[..|rules| - 1], expand) + (if last.PowerPair? then [PoweredBy(last.poweredBy, expand)] else [])
  }

  /** The topic named by the last designation, if any. */
  function LastTopic(topic: string, rules: seq<Rule>): string
    decreases |rules|
  {
    if |rules| == 0 then topic
    else if rules[|rules| - 1].TopicDesignation? then rules[|rules| - 1].topic
    else LastTopic(topic, rules[..|rules| - 1])
  }

  /** Once a rule raised, nothing more happens. */
  lemma {:induction false} RunAfterFailure(c: Context, rules: seq<Rule>, write: Writer, expand: Expander)
    requires c.failure.Some?
    ensures Run(c, rules, write, expand) == c
    decreases |rules|
  {
    if |rules| > 0 {
      RunAfterFailure(c, rules[..|rules| - 1], write, expand);
    }
  }

  /** Running the rules and then one more. */
  lemma RunAppend(c: Context, rules: seq<Rule>, r: Rule, write: Writer, expand: Expander)
    ensures var prev := Run(c, rules, write, expand);
            Run(c, rules + [r], write, expand) == Step(prev, r, write(prev, r), expand)
  {
    assert (rules + [r])[..|rules|] == rules;
  }

  /** Records already written are never taken back. */
  lemma {:induction false} RunKeepsOutput(c: Context, rules: seq<Rule>, write: Writer, expand: Expander)
    ensures c.out <= Run(c, rules, write, expand).out
    decreases |rules|
  {
    if |rules| > 0 {
      RunKeepsOutput(c, rules[..|rules| - 1], write, expand);
    }
  }

  /** `all_power_entities` lists the switch of every pairing rule run so
      far, in the order of the rules. */
  lemma {:induction false} RunPower(c: Context, rules: seq<Rule>, write: Writer, expand: Expander)
    requires c.failure.None?
    ensures Run(c, rules, write, expand).failure.None? ==>
              Run(c, rules, write, expand).power == c.power + PowerSwitches(rules, expand)
    decreases |rules|
  {
    if |rules| > 0 {
      var init := rules[..|rules| - 1];
      RunPower(c, init, write, expand);
      var prev := Run(c, init, write, expand);
      if prev.failure.None? && rules[|rules| - 1].PowerPair? {
        assert c.power + PowerSwitches(init, expand) + [PoweredBy(rules[|rules| - 1].poweredBy, expand)]
               == c.power + PowerSwitches(rules, expand);
      }
    }
  }

  /** The ambient topic is the one last designated, or the initial one. */
  lemma {:induction false} RunTopic(c: Context, rules: seq<Rule>, write: Writer, expand: Expander)
    requires c.failure.None?
    ensures Run(c, rules, write, expand).failure.None? ==>
              Run(c, rules, write, expand).topic == LastTopic(c.topic, rules)
    decreases |rules|
  {
    if |rules| > 0 {
      RunTopic(c, rules[..|rules| - 1], write, expand);
    }
  }

  /** Running all rules is running the rest from where a prefix left off. */
  lemma {:induction false} RunSplit(c: Context, rules: seq<Rule>, i: nat, write: Writer, expand: Expander)
    requires i <= |rules|
    ensures Run(c, rules, write, expand) == Run(Run(c, rules[..i], write, expand), rules[i..], write, expand)
    decreases |rules|
  {
    if |rules| > i {
      var init := rules[..|rules| - 1];
      assert init[..i] == rules[..i];
      RunSplit(c, init, i, write, expand);
      assert rules[i..][..|rules[i..]| - 1] == init[i..];
      assert rules[i..][|rules[i..]| - 1] == rules[|rules| - 1];
    } else {
      assert rules[..i] == rules;
      assert rules[i..] == [];
    }
  }

  /** One more rule: after the rule at `i`, the run has reached `after`,
      and if it raised, the whole run ends there. */
  lemma RunNext(c: Context, rules: seq<Rule>, i: nat, write: Writer, expand: Expander, before: Context, after: Context)
    requires i < |rules| && Run(c, rules[..i], write, expand) == before
    requires after == Step(before, rules[i], write(before, rules[i]), expand)
    ensures Run(c, rules[..i + 1], write, expand) == after
    ensures after.failure.Some? ==> Run(c, rules, write, expand) == after
  {
    assert rules[..i + 1] == rules[..i] + [rules[i]];
    RunAppend(c, rules[..i], rules[i], write, expand);
    if after.failure.Some? {
      RunAfterFailure(after, rules[i + 1..], write, expand);
      RunSplit(c, rules, i + 1, write, expand);
    }
  }

  /** A run that did not raise wrote the last rule's records after all the
      others. */
  lemma RunLast(c: Context, rules: seq<Rule>, r: Rule, write: Writer, expand: Expander)
    requires Run(c, rules + [r], write, expand).failure.None?
    ensures var before := Run(c, rules, write, expand);
            && before.failure.None? && write(before, r).Ok?
            && Run(c, rules + [r], write, expand).out == before.out + write(before, r).value
  {
    RunAppend(c, rules, r, write, expand);
  }

  /** Whatever the other rules write, an `* off_at` rule written as the
      transformer writes it turns off every switch paired before it. */
  lemma RunOffAt(c: Context, rules: seq<Rule>, time: TimeNode, write: Writer, expand: Expander, inputName: string)
    requires c.failure.None?
    requires Run(c, rules + [PowerOffAt(time)], write, expand).failure.None?
    requires forall d: Context :: write(d, PowerOffAt(time)) == PowerOffAtRecords(time, inputName, d.power)
    ensures var after := Run(c, rules + [PowerOffAt(time)], write, expand);
            && |after.out| > 0
            && after.out[|after.out| - 1].alias == inputName + " media_power all_off"
            && ActionOf(after.out[|after.out| - 1].body)
               == Some(Call("homeassistant.turn_off", Some(Join(",", c.power + PowerSwitches(rules, expand))), map[]))
  {
    RunLast(c, rules, PowerOffAt(time), write, expand);
    RunPower(c, rules, write, expand);
  }

  /** The `* off_at` rule turns off, in one record, every switch paired by
      the rules before it, comma-joined in order. */
  lemma OffAtTurnsOffEarlierSwitches(c: Context, rules: seq<Rule>, time: TimeNode, expand: Expander, inputName: string)
    requires c.failure.None?
    requires Run(c, rules + [PowerOffAt(time)], Transformer(expand, inputName), expand).failure.None?
    ensures var after := Run(c, rules + [PowerOffAt(time)], Transformer(expand, inputName), expand);
            && |after.out| > 0
            && after.out[|after.out| - 1].alias == inputName + " media_power all_off"
            && ActionOf(after.out[|after.out| - 1].body)
               == Some(Call("homeassistant.turn_off", Some(Join(",", c.power + PowerSwitches(rules, expand))), map[]))
  {
    TransformerWritesOffAt(time, expand, inputName);
    RunOffAt(c, rules, time, Transformer(expand, inputName), expand, inputName);
  }

  /** The transformer writes an `* off_at` rule as the all-off record over
      the switches in force, whatever the context. */
  lemma TransformerWritesOffAt(time: TimeNode, expand: Expander, inputName: string)
    ensures forall d: Context :: Transformer(expand, inputName)(d, PowerOffAt(time))
                                 == PowerOffAtRecords(time, inputName, d.power)
  {
    forall d: Context
      ensures Transformer(expand, inputName)(d, PowerOffAt(time)) == PowerOffAtRecords(time, inputName, d.power)
    {
    }
  }

  /** Whatever the other rules write, a rule that listens on the topic in
      force listens on the topic designated last before it. */
  lemma RunListens(c: Context, rules: seq<Rule>, r: Rule, write: Writer, expand: Expander)
    requires c.failure.None?
    requires Run(c, rules + [r], write, expand).failure.None?
    requires var before := Run(c, rules, write, expand);
             write(before, r).Ok? ==> ListensOn(write(before, r).value, before.topic)
    ensures var before := Run(c, rules, write, expand);
            var after := Run(c, rules + [r], write, expand);
            && |after.out| > |before.out|
            && forall k :: |before.out| <= k < |after.out| ==>
                 TriggerOf(after.out[k].body).Some? && TriggerOf(after.out[k].body).value.topic == Some(LastTopic(c.topic, rules))
  {
    RunLast(c, rules, r, write, expand);
    RunTopic(c, rules, write, expand);
    var before := Run(c, rules, write, expand);
    AppendListening(before.out, write(before, r).value, before.topic);
  }

  /** Records appended after others keep listening where they did. */
  lemma AppendListening(prefix: seq<Record>, rs: seq<Record>, topic: string)
    requires ListensOn(rs, topic)
    ensures |prefix + rs| > |prefix|
    ensures forall k :: |prefix| <= k < |prefix + rs| ==>
              TriggerOf((prefix + rs)[k].body).Some? && TriggerOf((prefix + rs)[k].body).value.topic == Some(topic)
  {
    forall k | |prefix| <= k < |prefix + rs|
      ensures TriggerOf((prefix + rs)[k].body).Some? && TriggerOf((prefix + rs)[k].body).value.topic == Some(topic)
    {
      assert (prefix + rs)[k] == rs[k - |prefix|];
    }
  }

  /** An MQTT rule listens on the topic designated last before it. */
  lemma MqttListensOnLastTopic(c: Context, rules: seq<Rule>, r: Rule, expand: Expander, inputName: string)
    requires c.failure.None? && r.WhenMqtt?
    requires Run(c, rules + [r], Transformer(expand, inputName), expand).failure.None?
    ensures var before := Run(c, rules, Transformer(expand, inputName), expand);
            var after := Run(c, rules + [r], Transformer(expand, inputName), expand);
            && |after.out| > |before.out|
            && forall k :: |before.out| <= k < |after.out| ==>
                 TriggerOf(after.out[k].body).Some? && TriggerOf(after.out[k].body).value.topic == Some(LastTopic(c.topic, rules))
  {
    var write := Transformer(expand, inputName);
    var before := Run(c, rules, write, expand);
    WhenMqttListens(r, before.topic, expand);
    assert write(before, r) == WhenMqttRecords(r, before.topic, expand);
    RunListens(c, rules, r, write, expand);
  }

  /** A pairing rule writes its two records and adds one switch. */
  lemma PowerPairStep(c: Context, entity: string, poweredBy: string, expand: Expander, inputName: string)
    requires c.failure.None?
    ensures var n := Step(c, PowerPair(entity, poweredBy), RuleRecords(c, PowerPair(entity, poweredBy), expand, inputName), expand);
            && n.power == c.power + [ServiceDefault("switch", BraceExpandedEntity(poweredBy, expand).entityId)]
            && |n.out| == |c.out| + 2
            && n.out[|c.out|].alias == ServiceDefault("media_player", entity) + " turn power on"
            && n.out[|c.out| + 1].alias == ServiceDefault("media_player", entity) + " turn power off_at"
            && n.failure.None?
  {
  }

  /** The transformer object: the class-level `mqtt_topic` and
      `all_power_entities`, and the output file as the records written to
      it.  `expand` is `braceexpand`; `inputName` is the first command-line
      argument, which names the `* off_at` record. */
  class Compiler {
    var mqttTopic: string
    var allPowerEntities: seq<string>
    var out: seq<Record>
    const expand: Expander
    const inputName: string

    /** The context this object holds. */
    function State(): Context
      reads this
    {
      Context(mqttTopic, allPowerEntities, out, None)
    }

    constructor(expand: Expander, inputName: string)
      ensures mqttTopic == InitialTopic && allPowerEntities == [] && out == []
      ensures this.expand == expand && this.inputName == inputName
    {
      this.expand := expand;
      this.inputName := inputName;
      mqttTopic := InitialTopic;
      allPowerEntities := [];
      out := [];
    }

    /** `output_automation_rule`: the record is written after the others. */
    method Output(record: Record)
      modifies this
      ensures out == old(out) + [record]
      ensures mqttTopic == old(mqttTopic) && allPowerEntities == old(allPowerEntities)
    {
      out := out + [record];
    }

    /** `mqtt_topic_designation`: later MQTT rules use this topic. */
    method MqttTopicDesignation(topic: string)
      modifies this
      ensures mqttTopic == topic
      ensures allPowerEntities == old(allPowerEntities) && out == old(out)
    {
      mqttTopic := topic;
    }

    /** `when`: the primary record and its else record, once or once per
      expansion of the trigger's entity. */
    method When(r: Rule) returns (error: Option<Exception>)
      requires r.When?
      modifies this
      ensures Step(old(State()), r, WhenRecords(r, expand), expand) == Context(mqttTopic, allPowerEntities, out, error)
    {
      var children := WhenChildren(r, expand);
      if children.Err? {
        return Some(children.error);
      }
      var d := MergeAll(children.value);
      var draft := WhenDraftFrom(r, d);
      if draft.Err? {
        return Some(draft.error);
      }
      error := WhenEmit(r, draft.value);
    }

    /** Lines 430-450: the records of a prepared `when` rule, written as
      they are built. */
    method WhenEmit(r: Rule, dr: Draft) returns (error: Option<Exception>)
      requires r.When? && dr.WellFormed()
      modifies this
      ensures Step(old(State()), r, WhenEmission(dr), expand) == Context(mqttTopic, allPowerEntities, out, error)
    {
      if |dr.expansions| == 0 {
        Output(Record(dr.name, dr.primary));
        if dr.sibling.Some? {
          Output(Record("ELSE " + dr.name, dr.sibling.value));
        }
        return None;
      }
      if dr.wildcard.None? {
        return Some(WhenEmission(dr).error);
      }
      FanOutEmit(dr, dr.wildcard.value);
      return None;
    }

    /** Lines 436-450: for each expansion in order, the primary record and
      then its else record. */
    method FanOutEmit(dr: Draft, wildcard: string)
      requires dr.WellFormed()
      modifies this
      ensures out == old(out) + FanOut(dr, wildcard, |dr.expansions|)
      ensures mqttTopic == old(mqttTopic) && allPowerEntities == old(allPowerEntities)
    {
      for i := 0 to |dr.expansions|
        invariant out == old(out) + FanOut(dr, wildcard, i)
        invariant mqttTopic == old(mqttTopic) && allPowerEntities == old(allPowerEntities)
      {
        Output(PrimaryRecord(dr, wildcard, i));
        if dr.sibling.Some? {
          Output(SiblingRecord(dr, wildcard, i));
        }
      }
    }

    /** `when_mqtt`: one record per expansion of the message. */
    method WhenMqtt(r: Rule) returns (error: Option<Exception>)
      requires r.WhenMqtt?
      modifies this
      ensures Step(old(State()), r, WhenMqttRecords(r, old(mqttTopic), expand), expand)
              == Context(mqttTopic, allPowerEntities, out, error)
    {
      var children := MqttChildren(r, mqttTopic, expand);
      if children.Err? {
        return Some(children.error);
      }
      var d := MergeAll(children.value);
      var draft := MqttDraftFrom(r, d);
      if draft.Err? {
        return Some(draft.error);
      }
      MqttEmit(draft.value);
      error := None;
    }

    /** Lines 325-339: one record per expansion, written as it is built. */
    method MqttEmit(dr: MqttDraft)
      requires dr.WellFormed()
      modifies this
      ensures out == old(out) + MqttFanOut(dr, |dr.expansions|)
      ensures mqttTopic == old(mqttTopic) && allPowerEntities == old(allPowerEntities)
    {
      for i := 0 to |dr.expansions|
        invariant out == old(out) + MqttFanOut(dr, i)
        invariant mqttTopic == old(mqttTopic) && allPowerEntities == old(allPowerEntities)
      {
        var e := dr.expansions[i];
        var message := ExpandStar(e, dr.message);
        var body := dr.d[ConditionKey := ConditionPart(PayloadCondition(message))]
                        [ActionKey := ActionPart(MqttAction(ActionOf(dr.d).value, e))];
        Output(Record(message + dr.lines, body));
      }
    }

    /** `when_fires`: one record, or one per expansion of the event. */
    method WhenFires(r: Rule) returns (error: Option<Exception>)
      requires r.WhenFires?
      modifies this
      ensures Step(old(State()), r, WhenFiresRecords(r, expand), expand) == Context(mqttTopic, allPowerEntities, out, error)
    {
      var children := FiresChildren(r, expand);
      if children.Err? {
        return Some(children.error);
      }
      var d := MergeAll(children.value);
      var draft := FiresDraftFrom(r, d);
      if draft.Err? {
        return Some(draft.error);
      }
      FiresEmit(draft.value);
      error := None;
    }

    /** Lines 358-375: the one record, or one record per expansion written
      as it is built. */
    method FiresEmit(dr: FiresDraft)
      requires dr.WellFormed()
      modifies this
      ensures out == old(out) + FiresEmission(dr)
      ensures mqttTopic == old(mqttTopic) && allPowerEntities == old(allPowerEntities)
    {
      if |dr.expansions| == 0 {
        Output(Record("when_fires_" + dr.event + dr.lines, dr.d));
        return;
      }
      for i := 0 to |dr.expansions|
        invariant out == old(out) + FiresFanOut(dr, i)
        invariant mqttTopic == old(mqttTopic) && allPowerEntities == old(allPowerEntities)
      {
        Output(FiresRecord(dr, i));
      }
    }

    /** `power_control` for `zone powered_by switch`. */
    method PowerPair(entity: string, poweredBy: string)
      modifies this
      ensures allPowerEntities == old(allPowerEntities) + [PoweredBy(poweredBy, expand)]
      ensures out == old(out) + PowerPairRecords(entity, poweredBy, expand)
      ensures mqttTopic == old(mqttTopic)
    {
      var zone := ServiceDefault("media_player", entity);
      var switch := PoweredBy(poweredBy, expand);
      allPowerEntities := allPowerEntities + [switch];
      Output(PowerOnRecord(zone, switch));
      Output(PowerOffRecord(zone, switch));
    }

    /** `power_control` for `* off_at time`. */
    method PowerOffAt(time: TimeNode) returns (error: Option<Exception>)
      modifies this
      ensures Step(old(State()), Tree.PowerOffAt(time), PowerOffAtRecords(time, inputName, old(allPowerEntities)), expand)
              == Context(mqttTopic, allPowerEntities, out, error)
    {
      var records := PowerOffAtRecords(time, inputName, allPowerEntities);
      if records.Err? {
        return Some(records.error);
      }
      Output(records.value[0]);
      return None;
    }

    /** `time_range`: the start record, then the end record. */
    method TimeRange(r: Rule) returns (error: Option<Exception>)
      requires r.TimeRange?
      modifies this
      ensures Step(old(State()), r, TimeRangeRecords(r, expand), expand) == Context(mqttTopic, allPowerEntities, out, error)
    {
      var records := TimeRangeRecords(r, expand);
      if records.Err? {
        return Some(records.error);
      }
      var rs := records.value;
      Output(rs[0]);
      Output(rs[1]);
      assert rs == [rs[0], rs[1]];
      return None;
    }

    /** One top-level rule, dispatched as the transformer does. */
    method Apply(r: Rule) returns (error: Option<Exception>)
      modifies this
      ensures Step(old(State()), r, RuleRecords(old(State()), r, expand, inputName), expand)
              == Context(mqttTopic, allPowerEntities, out, error)
    {
      match r {
        case TopicDesignation(topic) =>
          MqttTopicDesignation(topic);
          error := None;
        case When(_, _, _, _, _, _) =>
          error := ApplyWhen(r);
        case WhenMqtt(_, _, _, _) =>
          error := ApplyWhenMqtt(r);
        case WhenFires(_, _, _, _) =>
          error := ApplyWhenFires(r);
        case WhenTemplate =>
          error := None;
        case PowerPair(entity, poweredBy) =>
          PowerPair(entity, poweredBy);
          error := None;
        case PowerOffAt(time) =>
          error := PowerOffAt(time);
        case TimeRange(_, _, _, _, _, _, _) =>
          error := ApplyTimeRange(r);
      }
    }

    method ApplyWhen(r: Rule) returns (error: Option<Exception>)
      requires r.When?
      modifies this
      ensures Step(old(State()), r, RuleRecords(old(State()), r, expand, inputName), expand)
              == Context(mqttTopic, allPowerEntities, out, error)
    {
      error := When(r);
    }

    method ApplyWhenMqtt(r: Rule) returns (error: Option<Exception>)
      requires r.WhenMqtt?
      modifies this
      ensures Step(old(State()), r, RuleRecords(old(State()), r, expand, inputName), expand)
              == Context(mqttTopic, allPowerEntities, out, error)
    {
      error := WhenMqtt(r);
    }

    method ApplyWhenFires(r: Rule) returns (error: Option<Exception>)
      requires r.WhenFires?
      modifies this
      ensures Step(old(State()), r, RuleRecords(old(State()), r, expand, inputName), expand)
              == Context(mqttTopic, allPowerEntities, out, error)
    {
      error := WhenFires(r);
    }

    method ApplyTimeRange(r: Rule) returns (error: Option<Exception>)
      requires r.TimeRange?
      modifies this
      ensures Step(old(State()), r, RuleRecords(old(State()), r, expand, inputName), expand)
              == Context(mqttTopic, allPowerEntities, out, error)
    {
      error := TimeRange(r);
    }

    /** `transform`: the rules in order, stopping at the first exception. */
    method Transform(rules: seq<Rule>) returns (error: Option<Exception>)
      modifies this
      ensures Run(old(State()), rules, Transformer(expand, inputName), expand)
              == Context(mqttTopic, allPowerEntities, out, error)
    {
      ghost var start := State();
      for i := 0 to |rules|
        invariant Run(start, rules[..i], Transformer(expand, inputName), expand) == State()
      {
        ghost var before := State();
        error := Apply(rules[i]);
        RunNext(start, rules, i, Transformer(expand, inputName), expand, before, State().(failure := error));
        if error.Some? {
          return;
        }
      }
      assert rules[..|rules|] == rules;
      error := None;
    }
  }
}
