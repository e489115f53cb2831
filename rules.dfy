/** What each top-level rule of the transformer emits
    (hass-hgl-to-yaml.py lines 311-505 and 846-877), as functions of the
    rule's parse tree and of the running context they read.  The methods of
    the `Compiler` class perform the same emission step by step. */
module Rules {

  import opened Wrappers
  import opened Text
  import opened Merge
  import opened Records
  import opened Exceptions
  import opened Helpers
  import opened Braces
  import opened Tree
  import opened Transforms

  /** The domain used whenever the source pops `_default_domain`: no
      callback produces that key, so it is always absent. */
  const NoDefault: string := ""

  function ElseOf(d: Fragment): Option<ElseClause>
  {
    if ElseKey in d && d[ElseKey].ElsePart? then Some(d[ElseKey].clause) else None
  }

  function ElseArgsOf(d: Fragment): Option<CondisArgs>
  {
    if ElseArgsKey in d && d[ElseArgsKey].ElseArgsPart? then Some(d[ElseArgsKey].args) else None
  }

  /** Python truthiness of a `for` value: clock text is falsy when empty. */
  predicate DurationTruthy(d: Duration)
  {
    !(d.Clock? && d.text == "")
  }

  // ------------------------------------------------ optional child fragments

  function ForFragments(node: Option<DurationNode>): (r: Result<seq<Fragment>>)
    ensures node.None? ==> r == Ok([])
    ensures r.Ok? ==> |r.value| <= 1 && forall k :: 0 <= k < |r.value| ==> r.value[k].Keys == {ForKey}
  {
    match node
    case None => Ok([])
    case Some(n) => var f :- ForClause(n); Ok([f])
  }

  function ConditionFragments(node: Option<ConditionNode>, expand: Expander): (r: Result<seq<Fragment>>)
    ensures node.None? ==> r == Ok([])
    ensures r.Ok? ==> |r.value| <= 1
    ensures r.Ok? ==> forall k :: 0 <= k < |r.value| ==> r.value[k].Keys == {ConditionKey, WhenOrWhileKey}
  {
    match node
    case None => Ok([])
    case Some(n) => var c :- ConditionClause(n, expand); Ok([c])
  }

  function ElseFragments(node: Option<ElseNode>, expand: Expander): (r: Result<seq<Fragment>>)
    ensures node.None? ==> r == Ok([])
    ensures r.Ok? ==> |r.value| <= 1 && forall k :: 0 <= k < |r.value| ==> r.value[k].Keys == {ElseKey}
  {
    match node
    case None => Ok([])
    case Some(n) => var e :- ElseClauseFragment(n, expand); Ok([e])
  }

  // -------------------------------------------------------------------- when

  /** The transformed children of `when`, in grammar order:
      entity_state for_clause? condition_clause? action else_clause?. */
  function WhenChildren(r: Rule, expand: Expander): (res: Result<seq<Fragment>>)
    requires r.When?
    ensures res.Ok? ==> |res.value| >= 2 && TriggerKey in res.value[0]
  {
    var state :- EntityState(r.state, expand);
    var forPart :- ForFragments(r.forClause);
    var condition :- ConditionFragments(r.condition, expand);
    var action :- ActionFragment(r.action, expand);
    var elsePart :- ElseFragments(r.elseClause, expand);
    Ok([state] + forPart + condition + [action] + elsePart)
  }

  /** What `when` has taken off the merged dictionary by line 404: the
      primary record so far, and the popped else clause, inverse condis
      arguments and `when`/`while` keyword. */
  datatype Prepared = Prepared(d: Fragment, els: Option<ElseClause>, vta: Option<CondisArgs>, whenOrWhile: Option<string>)
  {
    /** The primary record has a trigger and a service call. */
    predicate WellFormed()
    {
      TriggerOf(d).Some? && ActionOf(d).Some? && ActionOf(d).value.Call?
    }
  }

  /** The trigger once a truthy `for` has moved into it. */
  function ForTrigger(d: Fragment): Trigger
    requires TriggerOf(d).Some?
  {
    var t := TriggerOf(d).value;
    if ForKey in d && d[ForKey].ForPart? && DurationTruthy(d[ForKey].duration)
    then t.(forDuration := Some(d[ForKey].duration)) else t
  }

  /** Lines 385-390: the entity summary is dropped and a truthy `for` moves
      into the trigger; nothing else changes. */
  function ForMoved(d: Fragment): (r: Fragment)
    requires TriggerOf(d).Some?
    ensures TriggerOf(r) == Some(ForTrigger(d))
    ensures ActionOf(r) == ActionOf(d) && ConditionOf(r) == ConditionOf(d)
    ensures ElseOf(r) == ElseOf(d) && ElseArgsOf(r) == ElseArgsOf(d)
    ensures TextOf(r, WhenOrWhileKey) == TextOf(d, WhenOrWhileKey)
    ensures r.Keys <= d.Keys && EntitySummaryKey !in r
  {
    var d1 := d - {EntitySummaryKey};
    if ForKey in d1 && d1[ForKey].ForPart? && DurationTruthy(d1[ForKey].duration)
    then (d1 - {ForKey})[TriggerKey := TriggerPart(ForTrigger(d))]
    else d1
  }

  /** Lines 385-404: the entity summary is dropped, a truthy `for` moves into
      the trigger, the action's service gets a domain, and the else clause,
      its inverse condis arguments and the keyword are popped. */
  function Prepare(d: Fragment): (r: Result<Prepared>)
    ensures r.Ok? <==> TriggerOf(d).Some? && ActionOf(d).Some? && ActionOf(d).value.Call?
    ensures r.Ok? ==> r.value.WellFormed()
    ensures r.Ok? ==> r.value.els == ElseOf(d) && r.value.vta == ElseArgsOf(d)
                      && r.value.whenOrWhile == TextOf(d, WhenOrWhileKey)
    ensures r.Ok? ==> r.value.d.Keys * {EntitySummaryKey, ElseKey, ElseArgsKey, WhenOrWhileKey} == {}
    ensures r.Ok? ==> ConditionOf(r.value.d) == ConditionOf(d)
    ensures r.Ok? ==> var a := ActionOf(d).value;
                      ActionOf(r.value.d) == Some(a.(service := ServiceDefault(NoDefault, a.service)))
    ensures r.Ok? ==> TriggerOf(r.value.d) == Some(ForTrigger(d))
  {
    if TriggerOf(d).None? then Err(NoTrigger)
    else
      var d2 := ForMoved(d);
      match ActionOf(d2)
      case None => Err(NoAction)
      case Some(MediaSequence(_, _)) => Err(ListIndexedByKey)
      case Some(a) =>
        var d3 := d2[ActionKey := ActionPart(a.(service := ServiceDefault(NoDefault, a.service)))];
        Ok(Prepared(d3 - {ElseKey, ElseArgsKey, WhenOrWhileKey}, ElseOf(d3), ElseArgsOf(d3), TextOf(d3, WhenOrWhileKey)))
  }

  /** The else branch's trigger: the inverse condis template over the else
      value, or the primary trigger with `to` set to the else value and the
      else clause's `for`, if any. */
  function ElseTrigger(t: Trigger, els: ElseClause, vta: Option<CondisArgs>): (r: Trigger)
    ensures vta.Some? ==> r == t.(valueTemplate := Some(Literal(TemplateFromCondis(vta.value.connector, vta.value.entities, els.value))))
    ensures vta.None? ==> r.toState == Some(els.value) && r.platform == t.platform && r.entityId == t.entityId
    ensures vta.None? ==> r.forDuration == (if els.forDuration.Some? then els.forDuration else t.forDuration)
  {
    if vta.Some? then
      t.(valueTemplate := Some(Literal(TemplateFromCondis(vta.value.connector, vta.value.entities, els.value))))
    else if els.forDuration.Some? then t.(toState := Some(els.value), forDuration := els.forDuration)
    else t.(toState := Some(els.value))
  }

  /** Lines 405-429: the else record is a copy of the primary record whose
      trigger is inverted, whose action is the else action with its
      wildcards taken from the primary action, and which keeps the condition
      only after `while`. */
  function ElseRecord(p: Prepared): (r: Result<Option<Fragment>>)
    requires p.WellFormed()
    ensures p.els.None? ==> r == Ok(None)
    ensures p.els.Some? ==>
              (r.Ok? <==> p.els.value.action.Call?
                          && (p.els.value.action.entityId == Some("*") ==> ActionOf(p.d).value.entityId.Some?))
    ensures r.Ok? && p.els.Some? ==> r.value.Some?
    ensures r.Ok? && r.value.Some? ==>
              var e := r.value.value;
              var primary := ActionOf(p.d).value;
              var other := p.els.value.action;
              && (ConditionKey in e <==> ConditionKey in p.d && p.whenOrWhile != Some("when"))
              && (ConditionKey in e ==> e[ConditionKey] == p.d[ConditionKey])
              && e.Keys + {ConditionKey} == p.d.Keys + {ConditionKey}
              && TriggerOf(e) == Some(ElseTrigger(TriggerOf(p.d).value, p.els.value, p.vta))
              && ActionOf(e).Some? && ActionOf(e).value.Call?
              && ActionOf(e).value.service
                 == ServiceDefault(NoDefault, ReplaceActionWildcardsFrom(other.service, primary.service))
              && ActionOf(e).value.entityId
                 == (if other.entityId == Some("*") then primary.entityId else other.entityId)
              && ActionOf(e).value.data == other.data
  {
    match p.els
    case None => Ok(None)
    case Some(els) =>
      var primary := ActionOf(p.d).value;
      var d2 := if p.whenOrWhile == Some("when") then p.d - {ConditionKey} else p.d;
      var d3 := d2[TriggerKey := TriggerPart(ElseTrigger(TriggerOf(p.d).value, els, p.vta))];
      match els.action
      case MediaSequence(_, _) => Err(ListIndexedByKey)
      case Call(service, entityId, data) =>
        var s := ServiceDefault(NoDefault, ReplaceActionWildcardsFrom(service, primary.service));
        if entityId == Some("*") && primary.entityId.None? then Err(NoEntityId)
        else
          var entity := if entityId == Some("*") then primary.entityId else entityId;
          Ok(Some(d3[ActionKey := ActionPart(Call(s, entity, data))]))
  }

  /** A trigger without the transient `_expansions` and `_entity_id_wc`. */
  function StripTrigger(d: Fragment): (r: Fragment)
    requires TriggerOf(d).Some?
    ensures r.Keys == d.Keys && TriggerOf(r).Some?
    ensures TriggerOf(r).value.expansions.None? && TriggerOf(r).value.entityWildcard.None?
    ensures TriggerOf(r).value.entityId == TriggerOf(d).value.entityId
    ensures ActionOf(r) == ActionOf(d) && ConditionOf(r) == ConditionOf(d)
  {
    d[TriggerKey := TriggerPart(TriggerOf(d).value.(expansions := None, entityWildcard := None))]
  }

  /** The `when` rule after line 429, ready to fan out: the primary record
      with its expansions popped, the else record if any, and the expansions
      with the wildcarded entity they substitute into. */
  datatype Draft = Draft(name: string, primary: Fragment, sibling: Option<Fragment>,
                         expansions: seq<string>, wildcard: Option<string>)
  {
    predicate WellFormed()
    {
      && TriggerOf(primary).Some? && ActionOf(primary).Some? && ActionOf(primary).value.Call?
      && (sibling.Some? ==> TriggerOf(sibling.value).Some? && ActionOf(sibling.value).Some?
                            && ActionOf(sibling.value).value.Call?)
    }
  }

  /** The name every `when` record is derived from. */
  function WhenName(meta: Meta): string
  {
    "when__" + LinesFromMeta(meta.line, meta.endLine)
  }

  /** Lines 385-433 applied to the merged children. */
  function WhenDraftFrom(r: Rule, d: Fragment): (res: Result<Draft>)
    requires r.When?
    ensures res.Ok? ==> res.value.WellFormed() && res.value.name == WhenName(r.meta)
    ensures res.Ok? ==> TriggerOf(res.value.primary).value.expansions.None?
    ensures res.Ok? && |res.value.expansions| > 0 ==> TriggerOf(res.value.primary).value.entityWildcard.None?
  {
    var p :- Prepare(d);
    var sibling :- ElseRecord(p);
    var t := TriggerOf(p.d).value;
    var exps := if t.expansions.Some? then t.expansions.value else [];
    var primary :=
      if |exps| > 0 then StripTrigger(p.d)
      else p.d[TriggerKey := TriggerPart(t.(expansions := None))];
    Ok(Draft(WhenName(r.meta), primary, sibling, exps, t.entityWildcard))
  }

  function WhenDraft(r: Rule, expand: Expander): Result<Draft>
    requires r.When?
  {
    var children :- WhenChildren(r, expand);
    WhenDraftFrom(r, MergedAll(children))
  }

  /** The entity one expansion stands for: the wildcarded entity with the
      `*` replaced, defaulted to `sensor`. */
  function ExpandedEntity(wildcard: string, e: string): (r: string)
    ensures '.' in r
  {
    ServiceDefault("sensor", ExpandStar(e, wildcard))
  }

  /** Python truthiness of an optional entity. */
  predicate Given(entity: Option<string>)
  {
    entity.Some? && entity.value != ""
  }

  /** Lines 438-442: one copy of a record for expansion `e`: the trigger
      names the expanded entity, and the action's service and (given)
      entity have the `*` replaced. */
  function Instantiate(d: Fragment, e: string, entity: string): (r: Fragment)
    requires TriggerOf(d).Some? && ActionOf(d).Some? && ActionOf(d).value.Call?
    ensures r.Keys == d.Keys
    ensures TriggerOf(r) == Some(TriggerOf(d).value.(entityId := Some(entity)))
    ensures ConditionOf(r) == ConditionOf(d)
    ensures var a := ActionOf(d).value;
            ActionOf(r) == Some(a.(service := ExpandStar(e, a.service),
                                   entityId := if Given(a.entityId) then Some(ExpandStar(e, a.entityId.value)) else a.entityId))
  {
    var a := ActionOf(d).value;
    var action := a.(service := ExpandStar(e, a.service),
                     entityId := if Given(a.entityId) then Some(ExpandStar(e, a.entityId.value)) else a.entityId);
    d[TriggerKey := TriggerPart(TriggerOf(d).value.(entityId := Some(entity)))][ActionKey := ActionPart(action)]
  }

  /** The record for expansion `i` of the primary rule. */
  function PrimaryRecord(dr: Draft, wildcard: string, i: nat): Record
    requires dr.WellFormed() && i < |dr.expansions|
  {
    var e := dr.expansions[i];
    Record(dr.name + " #" + NatToString(i), Instantiate(dr.primary, e, ExpandedEntity(wildcard, e)))
  }

  /** The else record for expansion `i`, as lines 447-449 write it: a copy
      of the else record with only the trigger's entity replaced. */
  function SiblingRecordAsWritten(dr: Draft, wildcard: string, i: nat): Record
    requires dr.WellFormed() && dr.sibling.Some? && i < |dr.expansions|
  {
    var d2 := dr.sibling.value;
    var e := dr.expansions[i];
    Record("ELSE " + dr.name + " #" + NatToString(i),
           d2[TriggerKey := TriggerPart(TriggerOf(d2).value.(entityId := Some(ExpandedEntity(wildcard, e))))])
  }

  /** The else record for expansion `i` as evidently intended: instantiated
      exactly like the primary record, from a trigger without transient
      entries. */
  function SiblingRecord(dr: Draft, wildcard: string, i: nat): Record
    requires dr.WellFormed() && dr.sibling.Some? && i < |dr.expansions|
  {
    var e := dr.expansions[i];
    Record("ELSE " + dr.name + " #" + NatToString(i),
           Instantiate(StripTrigger(dr.sibling.value), e, ExpandedEntity(wildcard, e)))
  }

  /** The records of the first `n` expansions, each primary record followed
      by its else record. */
  function FanOut(dr: Draft, wildcard: string, n: nat): (r: seq<Record>)
    requires dr.WellFormed() && n <= |dr.expansions|
    ensures |r| == (if dr.sibling.Some? then 2 * n else n)
  {
    if n == 0 then []
    else
      FanOut(dr, wildcard, n - 1) + [PrimaryRecord(dr, wildcard, n - 1)]
      + (if dr.sibling.Some? then [SiblingRecord(dr, wildcard, n - 1)] else [])
  }

  /** Lines 430-450: without expansions the primary record and the else
      record; otherwise one group of records per expansion. */
  function WhenEmission(dr: Draft): Result<seq<Record>>
    requires dr.WellFormed()
  {
    if |dr.expansions| == 0 then
      Ok([Record(dr.name, dr.primary)] + (if dr.sibling.Some? then [Record("ELSE " + dr.name, dr.sibling.value)] else []))
    else if dr.wildcard.None? then Err(NoWildcard)
    else Ok(FanOut(dr, dr.wildcard.value, |dr.expansions|))
  }

  /** Everything `when` emits. */
  function WhenRecords(r: Rule, expand: Expander): Result<seq<Record>>
    requires r.When?
  {
    var dr :- WhenDraft(r, expand);
    WhenEmission(dr)
  }

  /** Without an else record the fan-out is one record per expansion, in
      expansion order. */
  lemma {:induction false} FanOutSingle(dr: Draft, wildcard: string, n: nat)
    requires dr.WellFormed() && n <= |dr.expansions| && dr.sibling.None?
    ensures |FanOut(dr, wildcard, n)| == n
    ensures forall i :: 0 <= i < n ==> FanOut(dr, wildcard, n)[i] == PrimaryRecord(dr, wildcard, i)
  {
    if n > 0 {
      FanOutSingle(dr, wildcard, n - 1);
      var prev := FanOut(dr, wildcard, n - 1);
      var f := FanOut(dr, wildcard, n);
      assert f == prev + [PrimaryRecord(dr, wildcard, n - 1)];
      forall i | 0 <= i < n
        ensures f[i] == PrimaryRecord(dr, wildcard, i)
      {
        if i < n - 1 {
          assert f[i] == prev[i];
        }
      }
    }
  }

  /** With an else record, expansion `i` gives records `2i` and `2i + 1`. */
  lemma {:induction false} FanOutPairedIndex(dr: Draft, wildcard: string, n: nat, i: nat)
    requires dr.WellFormed() && i < n <= |dr.expansions| && dr.sibling.Some?
    ensures |FanOut(dr, wildcard, n)| == 2 * n
    ensures FanOut(dr, wildcard, n)[2 * i] == PrimaryRecord(dr, wildcard, i)
    ensures FanOut(dr, wildcard, n)[2 * i + 1] == SiblingRecord(dr, wildcard, i)
  {
    if i < n - 1 {
      FanOutPairedIndex(dr, wildcard, n - 1, i);
    }
  }

  /** With an else record each primary record is immediately followed by
      its else record. */
  lemma FanOutPaired(dr: Draft, wildcard: string, n: nat)
    requires dr.WellFormed() && n <= |dr.expansions| && dr.sibling.Some?
    ensures |FanOut(dr, wildcard, n)| == 2 * n
    ensures forall i :: 0 <= i < n ==> FanOut(dr, wildcard, n)[2 * i] == PrimaryRecord(dr, wildcard, i)
    ensures forall i :: 0 <= i < n ==> FanOut(dr, wildcard, n)[2 * i + 1] == SiblingRecord(dr, wildcard, i)
  {
    forall i | 0 <= i < n
      ensures FanOut(dr, wildcard, n)[2 * i] == PrimaryRecord(dr, wildcard, i)
      ensures FanOut(dr, wildcard, n)[2 * i + 1] == SiblingRecord(dr, wildcard, i)
    {
      FanOutPairedIndex(dr, wildcard, n, i);
    }
  }

  /** A primary record and its else record name the same expanded entity,
      and neither keeps a transient trigger entry. */
  lemma SiblingMatchesPrimary(dr: Draft, wildcard: string, i: nat)
    requires dr.WellFormed() && dr.sibling.Some? && i < |dr.expansions|
    requires TriggerOf(dr.primary).value.expansions.None? && TriggerOf(dr.primary).value.entityWildcard.None?
    ensures var p := TriggerOf(PrimaryRecord(dr, wildcard, i).body).value;
            var s := TriggerOf(SiblingRecord(dr, wildcard, i).body).value;
            && p.entityId == s.entityId == Some(ExpandedEntity(wildcard, dr.expansions[i]))
            && p.expansions.None? && p.entityWildcard.None? && s.expansions.None? && s.entityWildcard.None?
  {
  }

  /** Counterexample for lines 412 and 447-449: the else record is copied
      before the trigger's expansions are popped, so every else record of a
      fan-out keeps them, while the corrected one drops them. */
  lemma SiblingAsWrittenLeaks(dr: Draft, wildcard: string, i: nat)
    requires dr.WellFormed() && dr.sibling.Some? && i < |dr.expansions|
    requires TriggerOf(dr.sibling.value).value.expansions == Some(dr.expansions)
    ensures TriggerOf(SiblingRecordAsWritten(dr, wildcard, i).body).value.expansions == Some(dr.expansions)
    ensures !CleanBody(SiblingRecordAsWritten(dr, wildcard, i).body)
    ensures TriggerOf(SiblingRecord(dr, wildcard, i).body).value.expansions.None?
  {
  }

  /** Counterexample for lines 428-429 and 447-449: an else action whose
      entity is `*` copies the primary entity unexpanded, so every else
      record of a fan-out keeps the literal `*`; the corrected one replaces
      it. */
  lemma SiblingAsWrittenKeepsStar(dr: Draft, wildcard: string, i: nat)
    requires dr.WellFormed() && dr.sibling.Some? && i < |dr.expansions|
    requires ActionOf(dr.sibling.value).value.entityId == Some("light.*")
    requires dr.expansions[i] == "kitchen"
    ensures ActionOf(SiblingRecordAsWritten(dr, wildcard, i).body).value.entityId == Some("light.*")
    ensures ActionOf(SiblingRecord(dr, wildcard, i).body).value.entityId == Some("light.kitchen")
  {
    assert ActionOf(SiblingRecordAsWritten(dr, wildcard, i).body) == ActionOf(dr.sibling.value);
    var t := "light.*";
    ExpandStarAtFirst("kitchen", t, 6);
    assert t[..6] == "light." && t[7..] == "";
    assert ExpandStar("kitchen", "") == "";
    assert ExpandStar("kitchen", t) == "light.kitchen";
    var e := dr.expansions[i];
    var stripped := StripTrigger(dr.sibling.value);
    assert ActionOf(stripped).value.entityId == Some(t);
    assert SiblingRecord(dr, wildcard, i).body == Instantiate(stripped, e, ExpandedEntity(wildcard, e));
  }

  /** Names built from one prefix and distinct indices differ. */
  lemma IndexedNamesDistinct(prefix: string, i: nat, j: nat)
    requires i != j
    ensures prefix + NatToString(i) != prefix + NatToString(j)
  {
    if prefix + NatToString(i) == prefix + NatToString(j) {
      assert NatToString(i) == (prefix + NatToString(i))[|prefix|..];
      assert NatToString(j) == (prefix + NatToString(j))[|prefix|..];
      NatToStringInjective(i, j);
    }
  }

  /** The name of record `a` of a paired fan-out. */
  function PairedAlias(name: string, a: nat): string
  {
    if a % 2 == 0 then name + " #" + NatToString(a / 2) else "ELSE " + name + " #" + NatToString(a / 2)
  }

  lemma PairedAliasesDistinct(name: string, a: nat, b: nat)
    requires |name| > 0 && name[0] == 'w' && a < b
    ensures PairedAlias(name, a) != PairedAlias(name, b)
  {
    if a % 2 == b % 2 {
      assert a / 2 != b / 2;
      if a % 2 == 0 {
        IndexedNamesDistinct(name + " #", a / 2, b / 2);
      } else {
        IndexedNamesDistinct("ELSE " + name + " #", a / 2, b / 2);
      }
    } else {
      AliasFirstChar(name, a);
      AliasFirstChar(name, b);
    }
  }

  /** A primary name starts like the base name, an else name with `E`. */
  lemma AliasFirstChar(name: string, a: nat)
    requires |name| > 0
    ensures |PairedAlias(name, a)| > 0
    ensures PairedAlias(name, a)[0] == if a % 2 == 0 then name[0] else 'E'
  {
  }

  lemma PairedAliasAt(dr: Draft, wildcard: string, a: nat)
    requires dr.WellFormed() && dr.sibling.Some? && a < 2 * |dr.expansions|
    ensures |FanOut(dr, wildcard, |dr.expansions|)| == 2 * |dr.expansions|
    ensures FanOut(dr, wildcard, |dr.expansions|)[a].alias == PairedAlias(dr.name, a)
  {
    var i := a / 2;
    FanOutPairedIndex(dr, wildcard, |dr.expansions|, i);
    if a % 2 == 0 {
      assert a == 2 * i;
    } else {
      assert a == 2 * i + 1;
    }
  }

  /** Every record of a `when` fan-out has its own name. */
  lemma FanOutNamesDistinct(dr: Draft, wildcard: string)
    requires dr.WellFormed() && |dr.name| > 0 && dr.name[0] == 'w'
    ensures var f := FanOut(dr, wildcard, |dr.expansions|);
            forall a, b :: 0 <= a < b < |f| ==> f[a].alias != f[b].alias
  {
    var n := |dr.expansions|;
    var f := FanOut(dr, wildcard, n);
    if dr.sibling.None? {
      FanOutSingle(dr, wildcard, n);
      forall a, b | 0 <= a < b < |f|
        ensures f[a].alias != f[b].alias
      {
        IndexedNamesDistinct(dr.name + " #", a, b);
      }
    } else {
      FanOutPaired(dr, wildcard, n);
      forall a, b | 0 <= a < b < |f|
        ensures f[a].alias != f[b].alias
      {
        PairedAliasAt(dr, wildcard, a);
        PairedAliasAt(dr, wildcard, b);
        PairedAliasesDistinct(dr.name, a, b);
      }
    }
  }

  /** The shape of what `when` emits: one record plus the else record
      without expansions, else one group per expansion in order. */
  lemma WhenShape(dr: Draft)
    requires dr.WellFormed() && WhenEmission(dr).Ok?
    ensures var out := WhenEmission(dr).value;
            var group := if dr.sibling.Some? then 2 else 1;
            && |out| == (if |dr.expansions| == 0 then group else group * |dr.expansions|)
            && (|dr.expansions| == 0 ==> out[0] == Record(dr.name, dr.primary))
            && (|dr.expansions| > 0 ==>
                  forall i :: 0 <= i < |dr.expansions| ==>
                    out[group * i] == PrimaryRecord(dr, dr.wildcard.value, i))
  {
    if |dr.expansions| > 0 {
      if dr.sibling.Some? {
        FanOutPaired(dr, dr.wildcard.value, |dr.expansions|);
      } else {
        FanOutSingle(dr, dr.wildcard.value, |dr.expansions|);
      }
    }
  }

  /** The children of `when_mqtt` and `when_fires` in order: the trigger
      fragment, the optional condition clause and the action; only the first
      carries a trigger or expansions. */
  function Children(first: Fragment, condition: seq<Fragment>, action: Fragment): (s: seq<Fragment>)
    requires forall k :: 0 <= k < |condition| ==> condition[k].Keys == {ConditionKey, WhenOrWhileKey}
    requires action.Keys == {ActionKey}
    ensures |s| >= 2 && s[0] == first
    ensures forall k :: 0 < k < |s| ==> ExpansionsKey !in s[k] && TriggerKey !in s[k]
  {
    [first] + condition + [action]
  }

  // --------------------------------------------------------------- when_mqtt

  /** The children of `when_mqtt`: mqtt_message [condition_clause] action. */
  function MqttChildren(r: Rule, topic: string, expand: Expander): (res: Result<seq<Fragment>>)
    requires r.WhenMqtt?
    ensures res.Ok? ==> |res.value| >= 2 && res.value[0] == MqttMessage(r.message, topic, expand)
    ensures res.Ok? ==> forall k :: 0 < k < |res.value| ==> ExpansionsKey !in res.value[k] && TriggerKey !in res.value[k]
  {
    var condition :- ConditionFragments(r.condition, expand);
    var action :- ActionFragment(r.action, expand);
    Ok(Children(MqttMessage(r.message, topic, expand), condition, action))
  }

  /** The payload test of a `when_mqtt` record. */
  function PayloadCondition(message: string): Condition
  {
    TemplateCondition("{{ trigger.payload | trim == \"" + message + "\" }}", None, None)
  }

  /** Lines 330-339 for one expansion: the service is star-expanded and
      cleaned up; a service with a domain lends it to a bare entity, a
      service without one gets the default domain. */
  function MqttAction(a: Action, e: string): (r: Action)
    requires a.Call?
    ensures r.Call? && r.data == a.data
    ensures var s := MediaCleanups(ExpandStar(e, a.service));
            if DomainFrom(Some(s)).Truthy() then r.service == s else r.service == ServiceDefault(NoDefault, s)
    ensures var s := MediaCleanups(ExpandStar(e, a.service));
            r.entityId == (if DomainFrom(Some(s)).Truthy() && DomainFrom(a.entityId).NoDomain?
                           then Some(DomainFrom(Some(s)).name + "." + a.entityId.value) else a.entityId)
  {
    var s := MediaCleanups(ExpandStar(e, a.service));
    var domain := DomainFrom(Some(s));
    if domain.Truthy() then
      if DomainFrom(a.entityId).NoDomain? then a.(service := s, entityId := Some(domain.name + "." + a.entityId.value))
      else a.(service := s)
    else a.(service := ServiceDefault(NoDefault, s))
  }

  /** The `when_mqtt` rule ready to fan out: the record without the trigger's
      `_message` and the top-level `_expansions`, the message, and the
      expansions (`['']` when there are none). */
  datatype MqttDraft = MqttDraft(d: Fragment, message: string, expansions: seq<string>, lines: string)
  {
    predicate WellFormed()
    {
      ActionOf(d).Some? && ActionOf(d).value.Call?
    }
  }

  /** Lines 320-324 applied to the merged children. */
  function MqttDraftFrom(r: Rule, d: Fragment): (res: Result<MqttDraft>)
    requires r.WhenMqtt?
    ensures res.Ok? ==> res.value.WellFormed() && ExpansionsKey !in res.value.d
    ensures res.Ok? ==> res.value.expansions == (if ExpansionsOf(d).Some? then ExpansionsOf(d).value else [""])
    ensures res.Ok? ==> TriggerOf(d).Some? && TriggerOf(d).value.message == Some(res.value.message)
                        && TriggerOf(res.value.d) == Some(TriggerOf(d).value.(message := None))
                        && res.value.lines == LinesFromMeta(r.meta.line, r.meta.endLine)
  {
    match TriggerOf(d)
    case None => Err(NoTrigger)
    case Some(t) =>
      if t.message.None? then Err(NoMessage)
      else
        var exps := if ExpansionsOf(d).Some? then ExpansionsOf(d).value else [""];
        var d1 := (d - {ExpansionsKey})[TriggerKey := TriggerPart(t.(message := None))];
        match ActionOf(d1)
        case Some(Call(_, _, _)) => Ok(MqttDraft(d1, t.message.value, exps, LinesFromMeta(r.meta.line, r.meta.endLine)))
        case _ => Err(ListIndexedByKey)
  }

  /** The record for expansion `i`: named after the expanded message, its
      condition compares the payload with it, its action is expanded. */
  function MqttRecord(dr: MqttDraft, i: nat): (r: Record)
    requires dr.WellFormed() && i < |dr.expansions|
    ensures var m := ExpandStar(dr.expansions[i], dr.message);
            && r.alias == m + dr.lines
            && ConditionOf(r.body) == Some(PayloadCondition(m))
            && ActionOf(r.body) == Some(MqttAction(ActionOf(dr.d).value, dr.expansions[i]))
            && r.body.Keys == dr.d.Keys + {ConditionKey}
            && TriggerOf(r.body) == TriggerOf(dr.d)
  {
    var e := dr.expansions[i];
    var m := ExpandStar(e, dr.message);
    Record(m + dr.lines, dr.d[ConditionKey := ConditionPart(PayloadCondition(m))]
                             [ActionKey := ActionPart(MqttAction(ActionOf(dr.d).value, e))])
  }

  function MqttFanOut(dr: MqttDraft, n: nat): (r: seq<Record>)
    requires dr.WellFormed() && n <= |dr.expansions|
    ensures |r| == n
  {
    if n == 0 then [] else MqttFanOut(dr, n - 1) + [MqttRecord(dr, n - 1)]
  }

  lemma {:induction false} MqttFanOutIndex(dr: MqttDraft, n: nat, i: nat)
    requires dr.WellFormed() && i < n <= |dr.expansions|
    ensures MqttFanOut(dr, n)[i] == MqttRecord(dr, i)
  {
    if i < n - 1 {
      MqttFanOutIndex(dr, n - 1, i);
    }
  }

  lemma MqttFanOutAt(dr: MqttDraft, n: nat)
    requires dr.WellFormed() && n <= |dr.expansions|
    ensures forall i :: 0 <= i < n ==> MqttFanOut(dr, n)[i] == MqttRecord(dr, i)
  {
    forall i | 0 <= i < n
      ensures MqttFanOut(dr, n)[i] == MqttRecord(dr, i)
    {
      MqttFanOutIndex(dr, n, i);
    }
  }

  /** Everything `when_mqtt` emits on the given topic. */
  function WhenMqttRecords(r: Rule, topic: string, expand: Expander): Result<seq<Record>>
    requires r.WhenMqtt?
  {
    var children :- MqttChildren(r, topic, expand);
    var dr :- MqttDraftFrom(r, MergedAll(children));
    Ok(MqttFanOut(dr, |dr.expansions|))
  }

  /** The merged `when_mqtt` dictionary has exactly the expansions of the
      message. */
  lemma MqttMergedExpansions(r: Rule, topic: string, expand: Expander)
    requires r.WhenMqtt? && MqttChildren(r, topic, expand).Ok?
    ensures var d := MergedAll(MqttChildren(r, topic, expand).value);
            ExpansionsOf(d) == BraceExpandedWord(r.message, expand).expansions
            && TriggerOf(d) == TriggerOf(MqttMessage(r.message, topic, expand))
  {
    var ds := MqttChildren(r, topic, expand).value;
    var m := MqttMessage(r.message, topic, expand);
    MergedAllLast(ds, 0, TriggerKey);
    if ExpansionsKey in m {
      MergedAllLast(ds, 0, ExpansionsKey);
    } else {
      MergedAllKeys(ds, ExpansionsKey);
    }
  }

  /** `when_mqtt` emits one record per expansion of its message, at least
      one, each named after and testing the payload against the expanded
      message, and listening on the topic in force. */
  lemma WhenMqttFansOut(r: Rule, topic: string, expand: Expander)
    requires r.WhenMqtt? && WhenMqttRecords(r, topic, expand).Ok?
    ensures var out := WhenMqttRecords(r, topic, expand).value;
            var tok := BraceExpandedWord(r.message, expand);
            var exps := if tok.expansions.Some? then tok.expansions.value else [""];
            && |out| == |exps| && |out| >= 1
            && forall i :: 0 <= i < |out| ==>
                 && out[i].alias == ExpandStar(exps[i], tok.word) + LinesFromMeta(r.meta.line, r.meta.endLine)
                 && ConditionOf(out[i].body) == Some(PayloadCondition(ExpandStar(exps[i], tok.word)))
                 && TriggerOf(out[i].body).Some? && TriggerOf(out[i].body).value.topic == Some(topic)
                 && TriggerOf(out[i].body).value.message.None?
  {
    var ds := MqttChildren(r, topic, expand).value;
    MqttMergedExpansions(r, topic, expand);
    var d := MergedAll(ds);
    var tok := BraceExpandedWord(r.message, expand);
    var dr := MqttDraftFrom(r, d).value;
    assert dr.message == tok.word;
    assert TriggerOf(dr.d).value.topic == Some(topic) && TriggerOf(dr.d).value.message.None?;
    MqttFanOutAt(dr, |dr.expansions|);
    var out := MqttFanOut(dr, |dr.expansions|);
    assert out == WhenMqttRecords(r, topic, expand).value;
    forall i | 0 <= i < |out|
      ensures TriggerOf(out[i].body) == TriggerOf(dr.d)
      ensures out[i].alias == ExpandStar(dr.expansions[i], tok.word) + LinesFromMeta(r.meta.line, r.meta.endLine)
    {
      assert out[i] == MqttRecord(dr, i);
    }
  }

  /** Records that all listen for MQTT messages on `topic`; there is at
      least one. */
  predicate ListensOn(rs: seq<Record>, topic: string)
  {
    && |rs| > 0
    && forall k :: 0 <= k < |rs| ==> TriggerOf(rs[k].body).Some? && TriggerOf(rs[k].body).value.topic == Some(topic)
  }

  /** Every record `when_mqtt` emits listens on the topic in force. */
  lemma WhenMqttListens(r: Rule, topic: string, expand: Expander)
    requires r.WhenMqtt?
    ensures WhenMqttRecords(r, topic, expand).Ok? ==> ListensOn(WhenMqttRecords(r, topic, expand).value, topic)
  {
    if WhenMqttRecords(r, topic, expand).Ok? {
      WhenMqttFansOut(r, topic, expand);
    }
  }

  // -------------------------------------------------------------- when_fires

  /** The children of `when_fires`: event condition_clause? action. */
  function FiresChildren(r: Rule, expand: Expander): (res: Result<seq<Fragment>>)
    requires r.WhenFires?
    ensures res.Ok? ==> |res.value| >= 2 && res.value[0] == Event(r.event, expand)
    ensures res.Ok? ==> forall k :: 0 < k < |res.value| ==> ExpansionsKey !in res.value[k] && TriggerKey !in res.value[k]
  {
    var condition :- ConditionFragments(r.condition, expand);
    var action :- ActionFragment(r.action, expand);
    Ok(Children(Event(r.event, expand), condition, action))
  }

  /** Lines 354-360: a service call gets the default domain, then lends its
      domain to a bare entity; the media composite is left alone. */
  function FiresAction(a: Action): (r: Action)
    ensures a.MediaSequence? ==> r == a
    ensures a.Call? ==> r.Call? && r.service == ServiceDefault(NoDefault, a.service) && r.data == a.data
    ensures a.Call? ==> var domain := DomainFrom(Some(r.service));
                        r.entityId == (if domain.Truthy() && DomainFrom(a.entityId).NoDomain?
                                       then Some(domain.name + "." + a.entityId.value) else a.entityId)
  {
    match a
    case MediaSequence(_, _) => a
    case Call(service, entityId, data) =>
      var s := ServiceDefault(NoDefault, service);
      var domain := DomainFrom(Some(s));
      if domain.Truthy() && DomainFrom(entityId).NoDomain? then Call(s, Some(domain.name + "." + entityId.value), data)
      else Call(s, entityId, data)
  }

  /** The `when_fires` rule ready to emit: the record without `_expansions`,
      its event name and the expansions (empty when there are none). */
  datatype FiresDraft = FiresDraft(d: Fragment, event: string, expansions: seq<string>, lines: string)
  {
    predicate WellFormed()
    {
      TriggerOf(d).Some? && ActionOf(d).Some? && (|expansions| > 0 ==> ActionOf(d).value.MediaSequence?)
    }
  }

  /** Lines 352-366 applied to the merged children. */
  function FiresDraftFrom(r: Rule, d: Fragment): (res: Result<FiresDraft>)
    requires r.WhenFires?
    ensures res.Ok? ==> res.value.WellFormed() && ExpansionsKey !in res.value.d
    ensures res.Ok? ==> res.value.expansions == (if ExpansionsOf(d).Some? then ExpansionsOf(d).value else [])
    ensures res.Ok? ==> TriggerOf(d).Some? && TriggerOf(d).value.eventType == Some(res.value.event)
                        && TriggerOf(res.value.d) == TriggerOf(d)
                        && res.value.lines == LinesFromMeta(r.meta.line, r.meta.endLine)
  {
    var exps := if ExpansionsOf(d).Some? then ExpansionsOf(d).value else [];
    var d1 := d - {ExpansionsKey};
    match ActionOf(d1)
    case None => Err(NoAction)
    case Some(a) =>
      var d2 := d1[ActionKey := ActionPart(FiresAction(a))];
      match TriggerOf(d2)
      case None => Err(NoTrigger)
      case Some(t) =>
        if t.eventType.None? then Err(NoEventType)
        else if |exps| > 0 && a.Call? then Err(DictIndexedByPosition)
        else Ok(FiresDraft(d2, t.eventType.value, exps, LinesFromMeta(r.meta.line, r.meta.endLine)))
  }

  /** The record for expansion `i`: the event name and the media stream
      have the `*` replaced. */
  function FiresRecord(dr: FiresDraft, i: nat): (r: Record)
    requires dr.WellFormed() && i < |dr.expansions|
    ensures var e := dr.expansions[i];
            && r.alias == "when_fires_" + e + dr.lines + " #" + NatToString(i)
            && TriggerOf(r.body) == Some(TriggerOf(dr.d).value.(eventType := Some(ExpandStar(e, dr.event))))
            && ActionOf(r.body).Some? && ActionOf(r.body).value.MediaSequence?
            && ActionOf(r.body).value.mediaContentId == ExpandStar(e, ActionOf(dr.d).value.mediaContentId)
            && ActionOf(r.body).value.entities == ActionOf(dr.d).value.entities
  {
    var e := dr.expansions[i];
    var a := ActionOf(dr.d).value;
    Record("when_fires_" + e + dr.lines + " #" + NatToString(i),
           dr.d[ActionKey := ActionPart(a.(mediaContentId := ExpandStar(e, a.mediaContentId)))]
               [TriggerKey := TriggerPart(TriggerOf(dr.d).value.(eventType := Some(ExpandStar(e, dr.event))))])
  }

  function FiresFanOut(dr: FiresDraft, n: nat): (r: seq<Record>)
    requires dr.WellFormed() && n <= |dr.expansions|
    ensures |r| == n
  {
    if n == 0 then [] else FiresFanOut(dr, n - 1) + [FiresRecord(dr, n - 1)]
  }

  lemma {:induction false} FiresFanOutAt(dr: FiresDraft, n: nat)
    requires dr.WellFormed() && n <= |dr.expansions|
    ensures forall i :: 0 <= i < n ==> FiresFanOut(dr, n)[i] == FiresRecord(dr, i)
  {
    if n > 0 {
      FiresFanOutAt(dr, n - 1);
    }
  }

  /** Lines 362-373: one record named after the event, or one per
      expansion. */
  function FiresEmission(dr: FiresDraft): (r: seq<Record>)
    requires dr.WellFormed()
    ensures |dr.expansions| == 0 ==> r == [Record("when_fires_" + dr.event + dr.lines, dr.d)]
    ensures |dr.expansions| > 0 ==> |r| == |dr.expansions|
  {
    if |dr.expansions| == 0 then [Record("when_fires_" + dr.event + dr.lines, dr.d)]
    else FiresFanOut(dr, |dr.expansions|)
  }

  /** Everything `when_fires` emits. */
  function WhenFiresRecords(r: Rule, expand: Expander): Result<seq<Record>>
    requires r.WhenFires?
  {
    var children :- FiresChildren(r, expand);
    var dr :- FiresDraftFrom(r, MergedAll(children));
    Ok(FiresEmission(dr))
  }

  /** The merged `when_fires` dictionary has exactly the trigger and the
      expansions of the event. */
  lemma FiresMerged(r: Rule, expand: Expander)
    requires r.WhenFires? && FiresChildren(r, expand).Ok?
    ensures var d := MergedAll(FiresChildren(r, expand).value);
            ExpansionsOf(d) == BraceExpandedWord(r.event, expand).expansions
            && TriggerOf(d) == TriggerOf(Event(r.event, expand))
  {
    var ds := FiresChildren(r, expand).value;
    var ev := Event(r.event, expand);
    MergedAllLast(ds, 0, TriggerKey);
    if ExpansionsKey in ev {
      MergedAllLast(ds, 0, ExpansionsKey);
    } else {
      MergedAllKeys(ds, ExpansionsKey);
    }
  }

  /** Record `i` is named after expansion `i` and fires on the event name
      with the `*` replaced by it. */
  predicate FiresNamed(out: seq<Record>, exps: seq<string>, event: string, lines: string)
  {
    && |out| == |exps|
    && forall i :: 0 <= i < |out| ==>
         && out[i].alias == "when_fires_" + exps[i] + lines + " #" + NatToString(i)
         && TriggerOf(out[i].body).Some?
         && TriggerOf(out[i].body).value.eventType == Some(ExpandStar(exps[i], event))
  }

  lemma FiresEmissionAt(dr: FiresDraft)
    requires dr.WellFormed() && |dr.expansions| > 0
    ensures FiresNamed(FiresEmission(dr), dr.expansions, dr.event, dr.lines)
  {
    FiresFanOutAt(dr, |dr.expansions|);
    forall i | 0 <= i < |dr.expansions|
      ensures FiresEmission(dr)[i] == FiresRecord(dr, i)
    {
    }
  }

  /** A templated event fans out into one record per expansion, each named
      after its expansion and firing on the expanded event name; a plain
      event gives one record. */
  lemma WhenFiresFansOut(r: Rule, expand: Expander)
    requires r.WhenFires? && WhenFiresRecords(r, expand).Ok?
    ensures var out := WhenFiresRecords(r, expand).value;
            var tok := BraceExpandedWord(r.event, expand);
            && (tok.expansions.None? ==> |out| == 1)
            && (tok.expansions.Some? ==>
                  FiresNamed(out, tok.expansions.value, tok.word, LinesFromMeta(r.meta.line, r.meta.endLine)))
  {
    var ds := FiresChildren(r, expand).value;
    FiresMerged(r, expand);
    var tok := BraceExpandedWord(r.event, expand);
    var d := MergedAll(ds);
    var dr := FiresDraftFrom(r, d).value;
    assert WhenFiresRecords(r, expand) == Ok(FiresEmission(dr));
    assert dr.event == tok.word;
    assert dr.expansions == (if tok.expansions.Some? then tok.expansions.value else []);
    if tok.expansions.Some? {
      FiresEmissionAt(dr);
    }
  }

  // ----------------------------------------------------------- power_control

  /** The switch a pairing rule powers: `switch` is the default domain. */
  function PoweredBy(poweredBy: string, expand: Expander): (r: string)
    ensures '.' in r
  {
    ServiceDefault("switch", BraceExpandedEntity(poweredBy, expand).entityId)
  }

  function PowerOnTrigger(zone: string, from: string): Trigger
  {
    NewTrigger("state").(entityId := Some(zone), toState := Some("playing"), fromState := Some(from))
  }

  function PowerOffTrigger(zone: string, to: string): Trigger
  {
    NewTrigger("state").(entityId := Some(zone), fromState := Some("playing"), toState := Some(to),
                         forDuration := Some(Amount("minutes", 15)))
  }

  /** Lines 468-482: power on when the zone starts playing from idle, off or
      paused. */
  function PowerOnRecord(zone: string, switch: string): (r: Record)
    ensures r.alias == zone + " turn power on"
    ensures TriggerKey in r.body && r.body[TriggerKey].TriggerListPart?
    ensures var ts := r.body[TriggerKey].triggers;
            && |ts| == 3 && ts[0].fromState == Some("idle") && ts[1].fromState == Some("off")
            && ts[2].fromState == Some("paused")
            && forall t <- ts :: t.platform == "state" && t.entityId == Some(zone) && t.toState == Some("playing")
    ensures ActionOf(r.body) == Some(Call("homeassistant.turn_on", Some(switch), map[]))
  {
    Record(zone + " turn power on",
           map[TriggerKey := TriggerListPart([PowerOnTrigger(zone, "idle"), PowerOnTrigger(zone, "off"),
                                              PowerOnTrigger(zone, "paused")]),
               ActionKey := ActionPart(Call("homeassistant.turn_on", Some(switch), map[]))])
  }

  /** Lines 483-496: power off when the zone has stopped playing, to idle or
      off, for 15 minutes. */
  function PowerOffRecord(zone: string, switch: string): (r: Record)
    ensures r.alias == zone + " turn power off_at"
    ensures TriggerKey in r.body && r.body[TriggerKey].TriggerListPart?
    ensures var ts := r.body[TriggerKey].triggers;
            && |ts| == 2 && ts[0].toState == Some("idle") && ts[1].toState == Some("off")
            && forall t <- ts :: t.platform == "state" && t.entityId == Some(zone) && t.fromState == Some("playing")
                                 && t.forDuration == Some(Amount("minutes", 15))
    ensures ActionOf(r.body) == Some(Call("homeassistant.turn_off", Some(switch), map[]))
  {
    Record(zone + " turn power off_at",
           map[TriggerKey := TriggerListPart([PowerOffTrigger(zone, "idle"), PowerOffTrigger(zone, "off")]),
               ActionKey := ActionPart(Call("homeassistant.turn_off", Some(switch), map[]))])
  }

  /** Lines 463-505: the pairing rule's two records, for the zone as a
      `media_player` and its switch. */
  function PowerPairRecords(entity: string, poweredBy: string, expand: Expander): (r: seq<Record>)
    ensures var zone := ServiceDefault("media_player", entity);
            r == [PowerOnRecord(zone, PoweredBy(poweredBy, expand)), PowerOffRecord(zone, PoweredBy(poweredBy, expand))]
  {
    var zone := ServiceDefault("media_player", entity);
    [PowerOnRecord(zone, PoweredBy(poweredBy, expand)), PowerOffRecord(zone, PoweredBy(poweredBy, expand))]
  }

  /** Lines 453-462: the `* off_at` rule turns off every switch paired so
      far, at the given time. */
  function PowerOffAtRecords(time: TimeNode, inputName: string, powerEntities: seq<string>): (r: Result<seq<Record>>)
    ensures r.Ok? <==> Time(time).Ok?
    ensures r.Ok? ==> |r.value| == 1 && r.value[0].alias == inputName + " media_power all_off"
                      && TriggerOf(r.value[0].body) == Some(Time(time).value)
                      && ActionOf(r.value[0].body) == Some(Call("homeassistant.turn_off", Some(Join(",", powerEntities)), map[]))
  {
    var t :- Time(time);
    Ok([Record(inputName + " media_power all_off",
               map[TriggerKey := TriggerPart(t),
                   ActionKey := ActionPart(Call("homeassistant.turn_off", Some(Join(",", powerEntities)), map[]))])])
  }

  // -------------------------------------------------------------- time_range

  /** Lines 852-855: the `with` entity is set on a clause's action, present
      or not. */
  function WithEntityOn(d: Fragment, entity: Option<string>): (r: Result<Fragment>)
    ensures r.Ok? <==> ActionOf(d).Some? && ActionOf(d).value.Call?
    ensures r.Ok? ==> r.value == d[ActionKey := ActionPart(ActionOf(d).value.(entityId := entity))]
  {
    match ActionOf(d)
    case None => Err(NoAction)
    case Some(MediaSequence(_, _)) => Err(ListIndexedByKey)
    case Some(a) => Ok(d[ActionKey := ActionPart(a.(entityId := entity))])
  }

  /** Lines 856-878 on the transformed children: a start record and an
      end record on the two times, both acting on the `with` entity. */
  function TimeRangeEmission(name: string, start: Trigger, end: Trigger, with: Option<string>,
                             startClause: Fragment, endClause: Fragment): (res: Result<seq<Record>>)
    ensures res.Ok? ==> |res.value| == 2 && res.value[0].alias == "start " + name && res.value[1].alias == "end " + name
  {
    var startAction :- WithEntityOn(startClause, with);
    var endAction :- WithEntityOn(endClause, with);
    var keyword := TextOf(startAction, WhenOrWhileKey);
    var startRecord := map[TriggerKey := TriggerPart(start)] + (startAction - {WhenOrWhileKey});
    var endRecord := map[TriggerKey := TriggerPart(end)] + endAction;
    if keyword == Some("while") then
      if ConditionKey !in startRecord then Err(NoCondition)
      else Ok([Record("start " + name, startRecord), Record("end " + name, endRecord[ConditionKey := startRecord[ConditionKey]])])
    else Ok([Record("start " + name, startRecord), Record("end " + name, endRecord)])
  }

  /** Lines 846-878: the children in grammar order, the start clause being
      the merge of its condition and its action. */
  function TimeRangeRecords(r: Rule, expand: Expander): (res: Result<seq<Record>>)
    requires r.TimeRange?
    ensures res.Ok? ==> |res.value| == 2 && res.value[0].alias == "start " + r.name && res.value[1].alias == "end " + r.name
  {
    var start :- Time(r.start);
    var end :- Time(r.end);
    var with :- WithClause(r.withClause, expand);
    var condition :- ConditionClause(r.startCondition, expand);
    var startAction :- ActionFragment(r.startAction, expand);
    var endAction :- ActionFragment(r.endAction, expand);
    TimeRangeEmission(r.name, start, end, with, Merge.Merge(condition, startAction), endAction)
  }

  /** The two time-range records: start and end on their times, both acting
      on the `with` entity, the start condition on the start record and,
      after `while` only, on the end record; the keyword itself is not
      emitted. */
  lemma TimeRangeShape(name: string, start: Trigger, end: Trigger, with: Option<string>,
                       keyword: string, condition: Condition, startAction: Action, endAction: Action)
    requires startAction.Call? && endAction.Call?
    ensures var startClause := map[ConditionKey := ConditionPart(condition), WhenOrWhileKey := TextPart(keyword),
                                   ActionKey := ActionPart(startAction)];
            var res := TimeRangeEmission(name, start, end, with, startClause, map[ActionKey := ActionPart(endAction)]);
            && res.Ok? && |res.value| == 2
            && res.value[0].alias == "start " + name && res.value[1].alias == "end " + name
            && TriggerOf(res.value[0].body) == Some(start) && TriggerOf(res.value[1].body) == Some(end)
            && ActionOf(res.value[0].body) == Some(startAction.(entityId := with))
            && ActionOf(res.value[1].body) == Some(endAction.(entityId := with))
            && ConditionOf(res.value[0].body) == Some(condition)
            && (ConditionKey in res.value[1].body <==> keyword == "while")
            && (keyword == "while" ==> ConditionOf(res.value[1].body) == Some(condition))
            && WhenOrWhileKey !in res.value[0].body && WhenOrWhileKey !in res.value[1].body
  {
  }

  lemma ConditionClauseShape(node: ConditionNode, expand: Expander)
    requires ConditionClause(node, expand).Ok?
    ensures var c := ConditionClause(node, expand).value;
            c == ConditionFragment(ConditionOf(c).value, node.keyword)
  {
    var c := ConditionClause(node, expand).value;
    match node.body
    case StateBody(state) =>
      var sc := EntityStateCondition(state, expand);
      assert sc.Ok?;
      assert ConditionClause(node, expand) == Ok(ConditionFragment(sc.value, node.keyword));
    case GlobalBody(symbol) =>
      assert c == ConditionFragment(GlobalState(symbol), node.keyword);
  }

  lemma MergeClauses(c: Fragment, a: Fragment, keyword: string, condition: Condition, action: Action)
    requires c == ConditionFragment(condition, keyword)
    requires a == map[ActionKey := ActionPart(action)]
    ensures Merge.Merge(c, a) == map[ConditionKey := ConditionPart(condition), WhenOrWhileKey := TextPart(keyword),
                                     ActionKey := ActionPart(action)]
  {
  }

  /** The start clause of a time range is its condition, keyword and
      action. */
  lemma TimeRangeStartClause(r: Rule, expand: Expander)
    requires r.TimeRange? && ConditionClause(r.startCondition, expand).Ok? && ActionFragment(r.startAction, expand).Ok?
    ensures var c := ConditionClause(r.startCondition, expand).value;
            Merge.Merge(c, ActionFragment(r.startAction, expand).value)
            == map[ConditionKey := ConditionPart(ConditionOf(c).value), WhenOrWhileKey := TextPart(r.startCondition.keyword),
                   ActionKey := ActionPart(ActionValue(r.startAction, expand).value)]
  {
    var c := ConditionClause(r.startCondition, expand).value;
    ConditionClauseShape(r.startCondition, expand);
    var a := ActionFragment(r.startAction, expand).value;
    MergeClauses(c, a, r.startCondition.keyword, ConditionOf(c).value, ActionValue(r.startAction, expand).value);
  }
}
