/** The exceptions the transformer raises.  Each constructor names one
    place where the source stops with a Python exception; its comment gives
    the exception Python reports there. */
module Exceptions {

  datatype Exception =
      /** `TypeError: list indices must be integers or slices, not str`: an
          action list (a media sequence) indexed by a key. */
    | ListIndexedByKey
      /** `AttributeError: 'Tree' object has no attribute 'get'`: a grammar
          node without a callback stays a Tree. */
    | UntransformedTree
      /** `KeyError: 'trigger'`: a rule without a trigger. */
    | NoTrigger
      /** `KeyError: 'action'`: a rule without an action. */
    | NoAction
      /** `ValueError: invalid literal for int() with base 10`: `int()` of a
          NUMBER lexeme with a fraction. */
    | NotAnInteger
      /** `TypeError`: a brace template in SERVICE_NAME yields a dict where
          the action wants a string. */
    | TemplatedServiceName
      /** `KeyError: 'entity_id'`: a trigger or action without `entity_id`
          where one is read. */
    | NoEntityId
      /** `KeyError: '_condition'`: `_condition` read again after it was
          popped. */
    | ConditionPopped
      /** `IndexError: list index out of range`: a media action without a
          first entity. */
    | NoMediaEntity
      /** `KeyError: 0`: a single action dict indexed by position 0. */
    | DictIndexedByPosition
      /** `KeyError: 'event_type'`: an event trigger without `event_type`. */
    | NoEventType
      /** `KeyError: 'condition'`: a `while` start clause without a
          condition. */
    | NoCondition
      /** `KeyError: '_message'`: an MQTT trigger without `_message`. */
    | NoMessage
      /** `AttributeError: 'NoneType' object has no attribute 'replace'`:
          expansions without an entity wildcard to replace. */
    | NoWildcard
      /** `ValueError: invalid literal for int()`: a clock field that is not
          digits. */
    | ClockNotAnInteger
      /** `Exception('Unknown unit')`: a duration dictionary with a unit other
          than hours, minutes or seconds. */
    | UnknownUnit
      /** `TypeError: 'dict_keys' object is not subscriptable`:
          `dict.keys()[0]` under Python 3. */
    | DictKeysNotSubscriptable
}
