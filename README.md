# hass-hgl-to-yaml: the rule compiler, in Dafny

`hass-hgl-to-yaml.py` compiles a small line-oriented language of
home-automation rules ("when X do Y", MQTT and event rules, media power
pairing, time ranges) into Home Assistant automation records. This project
models its core: the `HassOutputter` transformer, which turns an
already-parsed rule tree into records, and the helpers it calls. The
verifier checks every property below.

Modules, in the order the program uses them:

- `Wrappers`, `Exceptions`: `Option`, `Result`, and one constructor per
  Python exception the transformer can raise.
- `Text`: the Python string operations the compiler relies on (`in`,
  `str.replace`, `str.join`, `str.split`, `str(n)`, `int(s)`).
- `Braces`: the `{.*}` search (first `{` to last `}`, greedy).
  `braceexpand` is a parameter: any function whose result is never empty.
- `Merge`: right-biased `Merge`/`MergeAll`.
- `Records`: the typed dictionaries. A `Fragment` is a map from the fixed
  key vocabulary (`trigger`, `condition`, `action`, `for` and the transient
  `_`-keys) to typed parts. A `Record` is what `output_automation_rule`
  writes: an alias and a body.
- `Helpers`: `expand_star`, `media_cleanups`, `lines_from_meta`,
  `replace_action_wildcards_from`, `template_from_condis`,
  `service_default`, `domain_from`, `minutes_from_time_duration`.
- `Tree`: the parse tree, one constructor per grammar production the
  transformer handles.
- `Transforms`: the callbacks below the rules (tokens, times, conditions,
  entity states, `service_params`, `action`).
- `Rules`: what each top-level rule writes, as functions of its tree and
  of the running context it reads.
- `Compiler`: the running context (ambient MQTT topic, switches paired so
  far, records written). It has two parts:
  - `Run` states what a sequence of rules produces;
  - the class `Compiler` is the transformer object with those three
    fields, and its methods are proved to follow `Run`.

The properties are stated on the spec functions and proved as lemmas. The
methods that emit step by step (`MergeAll`, `service_params`, the fan-out
loops of `when`, `when_mqtt` and `when_fires`, `power_control`,
`Transform`) are proved to produce exactly what those functions say.

## Model

| member | source | states |
|---|---|---|
| Merge.Merge | hass-hgl-to-yaml.py:249-251 | the keys are those of both maps; a key of the right map takes its value, a key only in the left map keeps its own |
| Merge.MergeAll | hass-hgl-to-yaml.py:254-258 | the loop returns the left-to-right merge of all the maps |
| Merge.MergedAllKeys | hass-hgl-to-yaml.py:254-258 | a key is in the result exactly when some input map holds it |
| Merge.MergedAllLast | hass-hgl-to-yaml.py:254-258 | a key's value comes from the last input map holding it |
| Merge.MergedAllSnoc | hass-hgl-to-yaml.py:256-257 | merging one more map is one more right-biased merge |
| Helpers.ExpandStarNoStar | hass-hgl-to-yaml.py:46-47 | a text without `*` is left unchanged |
| Helpers.ExpandStarLeavesNoStar | hass-hgl-to-yaml.py:46-47 | an expansion without `*` leaves no `*` in the result |
| Helpers.ExpandStarLengths | hass-hgl-to-yaml.py:46-47 | equal-length expansions give equal-length texts; a longer one gives a longer text once the text has a `*` |
| Helpers.ExpandStarAtFirst | hass-hgl-to-yaml.py:46-47 | the text before the first `*` is copied and that `*` becomes the expansion |
| Helpers.ExpandStarInjective | hass-hgl-to-yaml.py:46-47 | distinct expansions of a text with a `*` give distinct texts |
| Helpers.MediaCleanupsUntouched | hass-hgl-to-yaml.py:50-53 | a service mentioning neither `media_volume` nor `channel_down` is left unchanged |
| Helpers.MediaVolumeCleaned | hass-hgl-to-yaml.py:50-53 | a single `media_volume` in a service is rewritten to `volume` and the text around it is kept |
| Helpers.ChannelDownCleaned | hass-hgl-to-yaml.py:50-53 | a single `channel_down` in a service is rewritten to `next_track` and the text around it is kept |
| Helpers.LinesFromMetaInjective | hass-hgl-to-yaml.py:84-87 | rules on different single lines get different position suffixes |
| Helpers.ReplaceActionWildcardsFrom | hass-hgl-to-yaml.py:261-266 | a bare `*` gives the primary service; one containing `*.` gives the primary service plus all but its first two characters; any other is kept |
| Helpers.BareWildcardIsExpansion | hass-hgl-to-yaml.py:261-263 | replacing a bare `*` agrees with `expand_star` |
| Helpers.TemplateFromCondisSingle | hass-hgl-to-yaml.py:283-288 | a template over one entity is `{{` + its `is_state(entity, value)` clause + `}}` |
| Helpers.TemplateClauseAt | hass-hgl-to-yaml.py:283-288 | clause `k` of the template is `is_state(entities[k], value)`, found between the opening `{{` and the closing `}}` |
| Helpers.TemplateFromCondisSnoc | hass-hgl-to-yaml.py:283-288 | one more entity inserts ` <connector> is_state(entity, value)` just before the closing `}}` |
| Helpers.ElseExcludesPrimary | hass-hgl-to-yaml.py:283-288 | with distinct values, the meaning `CondisHolds` gives to the dual-connective else template never holds together with the meaning of the primary one |
| Helpers.ElseIsNegation | hass-hgl-to-yaml.py:283-288 | when every entity is in one of the two states, the meaning `CondisHolds` gives to the else template holds exactly when that of the primary does not (De Morgan) |
| Helpers.TemplateInverseDiffers | hass-hgl-to-yaml.py:283-288 | with two or more entities the dual template is a different text |
| Helpers.ServiceDefault | hass-hgl-to-yaml.py:291-296 | the result always has a `.`; a dotted name is kept; a bare one gets the default, or `homeassistant` when the default is empty |
| Helpers.ServiceDefaultIdempotent | hass-hgl-to-yaml.py:291-296 | defaulting a defaulted name changes nothing, whatever the second default |
| Helpers.DomainFrom | hass-hgl-to-yaml.py:299-304 | False exactly for a missing entity and None exactly for an undotted one; otherwise the dot-free text before the first `.` |
| Helpers.DomainOfDefault | hass-hgl-to-yaml.py:291-304 | a defaulted name always has a domain, and for a bare name it is the default domain |
| Helpers.MinutesFromTimeDuration | hass-hgl-to-yaml.py:56-73 | the clock branch agrees with the code as written; it fails only on bad clock text or an unknown unit |
| Helpers.AsWrittenRejectsAmount | hass-hgl-to-yaml.py:57-59 | `30 minutes` fails as written and gives 30 once corrected |
| Helpers.SplitClock | hass-hgl-to-yaml.py:68 | a printed `h:m:s` splits into its three numbers |
| Helpers.ClockMinutes | hass-hgl-to-yaml.py:68-70 | a printed `h:m:s` is `60h + m + s/60` minutes |
| Helpers.AmountAgreesWithClock | hass-hgl-to-yaml.py:56-73 | the corrected dictionary branch gives the same minutes as the equivalent clock text |
| Braces.BraceSpan | hass-hgl-to-yaml.py:539-540 | no match exactly when no `{` is followed by a `}`; otherwise the first `{` and the last `}` |
| Braces.Wildcarded | hass-hgl-to-yaml.py:544 | the matched span becomes a single `*` and the rest is kept |
| Transforms.BraceExpandedWord | hass-hgl-to-yaml.py:536-548 | a word without a template is kept; otherwise its template becomes `*` and its non-empty expansions are recorded |
| Transforms.BraceExpandedEntity | hass-hgl-to-yaml.py:556-571 | with a template, `entity_id` joins the expansions of the whole token, and `_entity_id_wc` is the token with a `*` |
| Transforms.ServiceName | hass-hgl-to-yaml.py:582-597 | the name is returned plain exactly when it has no brace template |
| Transforms.MmSsKeepsMinutes | hass-hgl-to-yaml.py:602-603 | padding `m:s` with a zero hour keeps its minutes, `m + s/60` |
| Transforms.Number | hass-hgl-to-yaml.py:658-659 | succeeds exactly on a digit string, with its decimal value |
| Transforms.TimeDuration | hass-hgl-to-yaml.py:599-616 | clock texts are kept (MM_SS padded); a count with a unit becomes a one-entry dictionary when the count is an integer |
| Transforms.TimeLogical | hass-hgl-to-yaml.py:623-633 | the result is never one of the three folded words; any other word is kept |
| Transforms.TimeLogicalIdempotent | hass-hgl-to-yaml.py:623-633 | folding twice is folding once |
| Transforms.Time | hass-hgl-to-yaml.py:639-656 | a clock literal gives a `time` trigger at it; a solar word gives a template trigger on the folded event; a written offset carries its sign and the minutes of its duration, and the call succeeds exactly when that duration converts |
| Transforms.GlobalState | hass-hgl-to-yaml.py:717-731 | always a template condition; a symbol other than sunny/cloudy reads the sensor of that name |
| Transforms.SimpleEntityState | hass-hgl-to-yaml.py:733-745 | keeps entity and value; the attribute template exists exactly when there are attribute clauses and joins their tests with `and` |
| Transforms.SensorEntities | hass-hgl-to-yaml.py:821-830 | each entity is `sensor`-defaulted, in order |
| Transforms.StateTrigger | hass-hgl-to-yaml.py:753-755 | a `state` trigger on the `sensor`-defaulted entity and the value, keeping the token's expansions and wildcard |
| Transforms.CondisTrigger | hass-hgl-to-yaml.py:759-778 | a template trigger over the entities, with the inverse connective recorded for the else branch |
| Transforms.EntityState | hass-hgl-to-yaml.py:751-784 | fails exactly on `multiple_entity_state`; a simple state has a condition exactly when it has attribute clauses |
| Transforms.CondisRecordsDual | hass-hgl-to-yaml.py:759-778 | an `or` trigger records `and` for its else branch and an `and` trigger records `or`, over the same entities |
| Transforms.EntityStateCondition | hass-hgl-to-yaml.py:786-819 | fails exactly on `multiple_entity_state`; a simple state keeps its value and its attribute test; agrees with the code wherever that succeeds |
| Transforms.AttributeConditionRaises | hass-hgl-to-yaml.py:816-818 | every attribute clause makes the code as written fail, and the corrected one keeps its test |
| Transforms.ConditionClause | hass-hgl-to-yaml.py:679-682 | the condition and the keyword and nothing else; fails exactly on `multiple_entity_state` |
| Transforms.ConditionFragment | hass-hgl-to-yaml.py:679-682 | exactly the `condition` and `_when_or_while` keys with those values |
| Transforms.ServiceParams | hass-hgl-to-yaml.py:699-715 | the loop returns the comma-joined entities and the merged pairs that the spec function gives |
| Transforms.ParamsEntityPresent | hass-hgl-to-yaml.py:702-711 | `entity_id` is present exactly when some argument is an entity |
| Transforms.ParamsDataLast | hass-hgl-to-yaml.py:707-713 | each `data` key takes its value from the last pair naming it |
| Transforms.ActionValue | hass-hgl-to-yaml.py:508-534 | a templated service fails; a call keeps its service and takes the parameters' `entity_id` and `data` (none without parameters); `play_doorbird_media` needs an entity and gives the media composite over the `media_player`-defaulted entities |
| Transforms.ActionFragment | hass-hgl-to-yaml.py:531-534 | exactly the `action` key, holding the action value |
| Transforms.ForClause | hass-hgl-to-yaml.py:605-608 | exactly the `for` key |
| Transforms.ElseClauseFragment | hass-hgl-to-yaml.py:684-686 | exactly the `_else` key with the value, duration and action; fails exactly when one of those does |
| Transforms.MqttMessage | hass-hgl-to-yaml.py:661-669 | an MQTT trigger on the given topic with the wildcarded message, plus the message's expansions |
| Transforms.Event | hass-hgl-to-yaml.py:671-677 | an event trigger on the wildcarded event name, plus its expansions |
| Transforms.WithClause | hass-hgl-to-yaml.py:876-882 | a bare entity is returned; a transformed entity state has no top-level `entity_id` |
| Rules.ForMoved | hass-hgl-to-yaml.py:387-392 | a truthy `for` moves into the trigger and the entity summary is dropped; every other entry is unchanged |
| Rules.Prepare | hass-hgl-to-yaml.py:385-404 | succeeds exactly with a trigger and a service call; pops else, inverse arguments and keyword; defaults the service; keeps the condition |
| Rules.ElseTrigger | hass-hgl-to-yaml.py:418-422 | the inverse template over the else value, or the trigger with `to` set to it and the else `for` if given |
| Rules.ElseRecord | hass-hgl-to-yaml.py:405-429 | after `when` the condition is dropped, otherwise kept; the trigger is inverted; the service takes the primary's wildcards and is defaulted; `*` copies the primary entity |
| Rules.StripTrigger | hass-hgl-to-yaml.py:430-437 | the trigger loses `_expansions` and `_entity_id_wc`; everything else is kept |
| Rules.WhenDraftFrom | hass-hgl-to-yaml.py:385-437 | the draft is well formed, named `when__` plus the position, and its trigger carries no expansions |
| Rules.ExpandedEntity | hass-hgl-to-yaml.py:440 | the expanded trigger entity always has a domain |
| Rules.Instantiate | hass-hgl-to-yaml.py:439-445 | the trigger names the expanded entity; the service and a given entity have `*` replaced; every other entry is kept |
| Rules.FanOut | hass-hgl-to-yaml.py:438-450 | one record per expansion, two with an else record |
| Rules.FanOutSingle | hass-hgl-to-yaml.py:438-446 | without an else record, record `i` is the primary record of expansion `i` |
| Rules.FanOutPairedIndex | hass-hgl-to-yaml.py:438-450 | with an else record, record `2i` is primary record `i` and record `2i+1` its else record |
| Rules.FanOutPaired | hass-hgl-to-yaml.py:438-450 | the same for every expansion at once |
| Rules.SiblingMatchesPrimary | hass-hgl-to-yaml.py:440-449 | a primary record and its else record name the same expanded entity, and neither keeps transient trigger entries |
| Rules.SiblingAsWrittenLeaks | hass-hgl-to-yaml.py:412-413 | as written every else record of a fan-out keeps `_expansions`; the corrected one does not |
| Rules.SiblingAsWrittenKeepsStar | hass-hgl-to-yaml.py:428-429 | as written an else entity `light.*` stays `light.*`; corrected it becomes `light.kitchen` |
| Rules.IndexedNamesDistinct | hass-hgl-to-yaml.py:446 | names with distinct indices differ |
| Rules.PairedAliasAt | hass-hgl-to-yaml.py:446-450 | record `a` of a paired fan-out is named `name #a/2`, with `ELSE ` in front for odd `a` |
| Rules.PairedAliasesDistinct | hass-hgl-to-yaml.py:446-450 | those names are pairwise distinct |
| Rules.FanOutNamesDistinct | hass-hgl-to-yaml.py:438-450 | every record of a `when` fan-out has its own name |
| Rules.WhenShape | hass-hgl-to-yaml.py:430-450 | without expansions, the primary record and then the else record; otherwise one group per expansion in order, starting with its primary record |
| Rules.MqttChildren | hass-hgl-to-yaml.py:316-320 | the message fragment comes first, and no later child has a trigger or expansions |
| Rules.MqttAction | hass-hgl-to-yaml.py:332-342 | the service is star-expanded then cleaned up; a service with a domain lends it to a bare entity, one without gets the default domain |
| Rules.MqttDraftFrom | hass-hgl-to-yaml.py:320-323 | pops the message and the expansions, `['']` when there are none |
| Rules.MqttRecord | hass-hgl-to-yaml.py:324-343 | named after the expanded message; its condition tests the payload against it; its action is expanded; the trigger is kept |
| Rules.MqttMergedExpansions | hass-hgl-to-yaml.py:320-322 | the merged dictionary has exactly the message's trigger and expansions |
| Rules.WhenMqttFansOut | hass-hgl-to-yaml.py:316-343 | at least one record, one per expansion in order, each named after and testing the expanded message, on the given topic |
| Rules.WhenMqttListens | hass-hgl-to-yaml.py:316-343 | every record `when_mqtt` writes listens on the topic in force |
| Rules.FiresChildren | hass-hgl-to-yaml.py:346-350 | the event fragment comes first, and no later child has a trigger or expansions |
| Rules.FiresAction | hass-hgl-to-yaml.py:353-361 | a call is defaulted and lends its domain to a bare entity; the media composite is left alone |
| Rules.FiresDraftFrom | hass-hgl-to-yaml.py:350-369 | pops the expansions and keeps the trigger; expansions with a plain call fail |
| Rules.FiresRecord | hass-hgl-to-yaml.py:366-374 | named `when_fires_e ... #i`; the event name and media stream have `*` replaced by expansion `i` |
| Rules.FiresEmission | hass-hgl-to-yaml.py:362-374 | without expansions, one record named after the event; otherwise one per expansion |
| Rules.FiresMerged | hass-hgl-to-yaml.py:350-352 | the merged dictionary has exactly the event's trigger and expansions |
| Rules.WhenFiresFansOut | hass-hgl-to-yaml.py:346-374 | a plain event gives one record; a templated one gives one per expansion, named after it and firing on the expanded event |
| Rules.PoweredBy | hass-hgl-to-yaml.py:467 | the paired switch always has a domain |
| Rules.PowerOnRecord | hass-hgl-to-yaml.py:469-485 | three state triggers to `playing` from idle, off and paused; turns the switch on |
| Rules.PowerOffRecord | hass-hgl-to-yaml.py:486-500 | two state triggers from `playing` to idle and off, for 15 minutes; turns the switch off |
| Rules.PowerPairRecords | hass-hgl-to-yaml.py:465-502 | exactly those two records, for the `media_player` zone and the `switch` entity |
| Rules.PowerOffAtRecords | hass-hgl-to-yaml.py:453-464 | one record on the time, turning off the comma-join of the switches; fails exactly when the time does |
| Rules.WithEntityOn | hass-hgl-to-yaml.py:845-847 | the `with` entity replaces the action's entity and nothing else changes |
| Rules.TimeRangeEmission | hass-hgl-to-yaml.py:848-873 | two records, named `start` and `end` plus the rule's text |
| Rules.TimeRangeRecords | hass-hgl-to-yaml.py:838-874 | the same, from the rule's tree |
| Rules.TimeRangeShape | hass-hgl-to-yaml.py:852-873 | start and end records on their times, both acting on the `with` entity; the condition is on start, and on end only after `while`; the keyword is not emitted |
| Rules.TimeRangeStartClause | hass-hgl-to-yaml.py:884-887 | the start clause is its condition, keyword and action |
| Compiler.Step | hass-hgl-to-yaml.py:307-505 | after an exception nothing changes; records are only appended; an exception stops the run |
| Compiler.RunAfterFailure | hass-hgl-to-yaml.py:923 | once a rule has raised, later rules do nothing |
| Compiler.RunKeepsOutput | hass-hgl-to-yaml.py:269-276 | records already written are never taken back |
| Compiler.RunPower | hass-hgl-to-yaml.py:501 | `all_power_entities` lists the switch of every pairing rule so far, in rule order |
| Compiler.RunTopic | hass-hgl-to-yaml.py:308-313 | the ambient topic is the one designated last, or the initial one |
| Compiler.RunOffAt | hass-hgl-to-yaml.py:453-464 | for any other rules, an `* off_at` rule written as the transformer writes it turns off every switch paired before it |
| Compiler.TransformerWritesOffAt | hass-hgl-to-yaml.py:453-464 | the transformer writes `* off_at` as the all-off record over the switches in force |
| Compiler.OffAtTurnsOffEarlierSwitches | hass-hgl-to-yaml.py:456-461 | the last record is `<input> media_power all_off` and turns off the switches of all earlier pairing rules, comma-joined in order |
| Compiler.RunListens | hass-hgl-to-yaml.py:311-313 | a rule listening on the topic in force listens on the topic designated last before it |
| Compiler.MqttListensOnLastTopic | hass-hgl-to-yaml.py:663-664 | every record of an MQTT rule listens on the topic designated last before it |
| Compiler.PowerPairStep | hass-hgl-to-yaml.py:465-505 | a pairing rule adds one switch and writes two records, power on and power off |
| Compiler.Compiler.constructor | hass-hgl-to-yaml.py:307-309 | the topic starts as `vantage/misc` and nothing is paired or written |
| Compiler.Compiler.Output | hass-hgl-to-yaml.py:269-276 | the record is appended after the others |
| Compiler.Compiler.MqttTopicDesignation | hass-hgl-to-yaml.py:311-313 | sets the topic and nothing else |
| Compiler.Compiler.When | hass-hgl-to-yaml.py:380-450 | the new state is one `Step` with the records `when` writes |
| Compiler.Compiler.WhenEmit | hass-hgl-to-yaml.py:430-450 | writes the records of the prepared rule |
| Compiler.Compiler.FanOutEmit | hass-hgl-to-yaml.py:436-450 | the loop writes exactly the fan-out, in order |
| Compiler.Compiler.WhenMqtt | hass-hgl-to-yaml.py:315-343 | one `Step` with the records `when_mqtt` writes on the current topic |
| Compiler.Compiler.MqttEmit | hass-hgl-to-yaml.py:324-343 | the loop writes exactly one record per expansion, in order |
| Compiler.Compiler.WhenFires | hass-hgl-to-yaml.py:345-374 | one `Step` with the records `when_fires` writes |
| Compiler.Compiler.FiresEmit | hass-hgl-to-yaml.py:362-374 | the loop writes exactly the records of the emission |
| Compiler.Compiler.PowerPair | hass-hgl-to-yaml.py:465-505 | appends the switch and writes the two records |
| Compiler.Compiler.PowerOffAt | hass-hgl-to-yaml.py:453-464 | one `Step` with the all-off record over the switches paired so far |
| Compiler.Compiler.TimeRange | hass-hgl-to-yaml.py:837-874 | one `Step` with the start and end records |
| Compiler.Compiler.Apply | hass-hgl-to-yaml.py:311-505 | any top-level rule is one `Step` of the run |
| Compiler.Compiler.Transform | hass-hgl-to-yaml.py:307-313 | the object ends in the state `Run` gives for the rules, stopping at the first exception |

## Left out

- Parsing: the Lark grammar and parser are a foreign library. The model
  takes the parse tree (`Tree.Rule`) as input and assumes optional children
  that were not written are absent rather than `None`.
- I/O: reading the input, YAML serialisation, the header comments, logging
  and argument parsing. `output_automation_rule` appends a record; the
  constant `hide_entity`/`initial_state` flags are not stored.
- `HTTP_BASE_URL`: a constant (`Transforms.BaseUrl`); the command-line
  override is not modelled.
- `braceexpand`: a parameter (`Braces.Expander`) whose results are never
  empty. Its expansion rules are not modelled.
- `text_from_meta` and `sys.argv[1]`: they read global input text and
  process arguments. They are parameters (`TimeRange.name`, `inputName`).
- `when_template`: a stub; it writes nothing.
- Line 67 raises a string, which Python 3 turns into a TypeError. It is
  modelled as the `UnknownUnit` error.
- Line 369 indexes `action[0]`. When the action is a service call (a
  dictionary) and the event has expansions, that raises KeyError 0. It is
  modelled as the `DictIndexedByPosition` error.
- The `*.` branch of `replace_action_wildcards_from` is modelled. No
  SERVICE_NAME the grammar accepts reaches it with a wildcard.
- Sun offsets are exact `real` minutes; Python prints a float.
- `multiple_entity_state` has no callback, so the untransformed tree
  reaches `.get` and raises. It is modelled as the `UntransformedTree`
  error.
- Transforms.ActionValue: a SERVICE_NAME with a brace template returns a
  dictionary, which `action` returns as the service without raising. The
  model fails with `TemplatedServiceName` at once. In `when`, `when_mqtt`
  and `when_fires` the program raises later anyway (`service_default` at
  lines 404 and 357 adds a string to the dictionary, `expand_star` at line
  333 calls `.replace` on it). Rules.TimeRangeRecords: `time_range` never
  touches the service, so on input such as `... end: light.turn_{on,off}`
  the program writes both records with the dictionary as their service and
  does not raise; the model fails on that rule instead.
- `mqtt_message` also sets `condition` to None. `when_mqtt` always
  overwrites it, so it is not modelled.
- Run and the Compiler class (`Compiler.Run`, `Compiler.Compiler.Transform`)
  compose the corrected members of the three findings below
  (`Helpers.MinutesFromTimeDuration`, `Transforms.EntityStateCondition`,
  `Rules.SiblingRecord`). On these inputs they write records where the
  program does something else: on `sunset + 30 minutes` the program raises
  TypeError at line 58; on a state condition with an attribute clause it
  raises KeyError at line 818; on a brace-expanded `when` with an else
  clause its else records keep `_expansions`, `_entity_id_wc` and the
  unexpanded `light.*`.
- Apart from those three findings, where the code and the project's
  documentation disagree, the model follows the code:
  - `when` does not lend the service domain to a bare action entity.
  - A `*` left in an action with no expansions is emitted literally.
  - `_when_or_while` stays in `when_mqtt` and `when_fires` records.
  - `when_mqtt` replaces any user condition with its payload test.
  - A condis condition keeps its transient `_else_value_template_args` and
    `_entity_summary`.
  - RAW_VALUE stays a string.
  - The time-range service is not domain-defaulted.
  - `with <entity state>` gives a null entity.
- `entity_state_condition`: an empty `to` is popped and not re-added.
  Values are never empty after parsing, so this is not distinguished.
- The else clause's `for` is ignored when inverse condis arguments are
  present (line 418 takes that branch). `Rules.ElseTrigger` states this.
- Transforms.ServiceName: states only the plain case; the templated case
  is what `Braces.Wildcarded` and `Transforms.BraceExpandedWord` state.
- Rules.FanOut: states only the length; `Rules.FanOutSingle` and
  `Rules.FanOutPaired` state the contents.
- Rules.TimeRangeRecords: states only the names; `Rules.TimeRangeShape`
  and `Rules.TimeRangeStartClause` state the contents.
- Rules.TimeRangeEmission: the same.
- Rules.FiresEmission: with expansions it states only the count;
  `Rules.WhenFiresFansOut` states the names and events.

## Findings

| source | as written | input that shows it | evidently intended | confidence | as-written member | corrected member |
|---|---|---|---|---|---|---|
| hass-hgl-to-yaml.py:58 | `args.keys()[0]` indexes a dictionary view, which raises TypeError in Python 3 | `sunset + 30 minutes`, i.e. `Amount("minutes", 30)` (Helpers.AsWrittenRejectsAmount) | read the one unit and count: 30 minutes | not executed | Helpers.MinutesFromTimeDurationAsWritten | Helpers.MinutesFromTimeDuration |
| hass-hgl-to-yaml.py:817-818 | `_condition` is popped and then read again, which raises KeyError | any state condition with an attribute clause, e.g. `motion is on with *.battery == low` (Transforms.AttributeConditionRaises) | keep the popped attribute template as the condition | not executed | Transforms.EntityStateConditionAsWritten | Transforms.EntityStateCondition |
| hass-hgl-to-yaml.py:412-413 | the else record is copied before the trigger's `_expansions` is popped, and its `*` entity before expansion | a brace-expanded `when` with an else clause whose action entity is `light.*` (Rules.SiblingAsWrittenLeaks, Rules.SiblingAsWrittenKeepsStar) | else records instantiated like the primary record: no transient keys, `*` expanded | not executed | Rules.SiblingRecordAsWritten | Rules.SiblingRecord |
