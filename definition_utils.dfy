/**
 * The checks the schema builders run before building
 * (processor/dll/DefinitionUtils.java). Each check either passes or throws a
 * MappingException carrying the caller's message.
 */
module DefinitionUtils {
  import opened Outcomes

  /** `notNull`: fails iff the value is null. */
  function NotNull<T>(property: Option<T>, message: string): (r: Outcome)
    ensures r.Fail? <==> property.None?
    ensures r.Fail? ==> r.error == MappingError(message)
  {
    if property.None? then Fail(MappingError(message)) else Pass
  }

  /** A string that is neither null nor empty. */
  predicate Present(o: Option<string>) {
    o.Some? && o.value != ""
  }

  /** `notEmpty(String)`: fails iff the string is null or empty. */
  function NotEmpty(property: Option<string>, message: string): (r: Outcome)
    ensures r.Fail? <==> property.None? || property.value == ""
    ensures r.Fail? ==> r.error == MappingError(message)
  {
    if property.None? || property.value == "" then Fail(MappingError(message)) else Pass
  }

  /** `notEmpty(Collection)`: fails iff the collection is null or empty. */
  function NotEmptyCollection<T>(property: Option<seq<T>>, message: string): (r: Outcome)
    ensures r.Fail? <==> property.None? || |property.value| == 0
    ensures r.Fail? ==> r.error == MappingError(message)
  {
    if property.None? || |property.value| == 0 then Fail(MappingError(message)) else Pass
  }

  /** The set holds an element that `same` identifies with `element`. */
  predicate Holds<E>(members: seq<E>, element: E, same: (E, E) -> bool) {
    exists i :: 0 <= i < |members| && same(element, members[i])
  }

  /** No two elements of the set are identified by `same`. */
  predicate Distinct<E>(members: seq<E>, same: (E, E) -> bool) {
    forall i, j :: 0 <= i < j < |members| ==> !same(members[j], members[i])
  }

  /**
   * `addOrThrowIfExist`: the caller's set grows by the element, or the call
   * throws when the set already holds an equal one. The set is a sequence
   * in insertion order, and `same` is the element type's `equals`.
   */
  function AddOrThrowIfExist<E>(members: seq<E>, element: E, same: (E, E) -> bool, message: string): (r: Result<seq<E>>)
    ensures r.Failure? <==> Holds(members, element, same)
    ensures r.Failure? ==> r.error == MappingError(message)
    ensures r.Success? ==> r.value == members + [element]
  {
    if Holds(members, element, same) then Failure(MappingError(message)) else Success(members + [element])
  }

  /** `Set.add`: the element joins unless an equal member is already there. */
  function SetAdd<E>(members: seq<E>, element: E, same: (E, E) -> bool): seq<E> {
    if Holds(members, element, same) then members else members + [element]
  }

  /** Adding an element a second time changes nothing, when `same` identifies it with itself. */
  lemma SetAddAgain<E>(members: seq<E>, element: E, same: (E, E) -> bool)
    requires same(element, element)
    ensures SetAdd(members + [element], element, same) == members + [element]
  {
    assert (members + [element])[|members|] == element;
  }

  /** Adding keeps the set free of duplicates, and grows it by exactly one element. */
  lemma AddKeepsDistinct<E>(members: seq<E>, element: E, same: (E, E) -> bool, message: string)
    requires Distinct(members, same)
    ensures AddOrThrowIfExist(members, element, same, message).Success? ==>
              Distinct(AddOrThrowIfExist(members, element, same, message).value, same)
              && |AddOrThrowIfExist(members, element, same, message).value| == |members| + 1
              && multiset(AddOrThrowIfExist(members, element, same, message).value) == multiset(members) + multiset{element}
  {
    var r := AddOrThrowIfExist(members, element, same, message);
    if r.Success? {
      var s := r.value;
      forall i, j | 0 <= i < j < |s| ensures !same(s[j], s[i]) {
        if j == |members| {
          assert s[j] == element && s[i] == members[i];
        } else {
          assert s[j] == members[j] && s[i] == members[i];
        }
      }
    }
  }
}
