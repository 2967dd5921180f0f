/**
 * NumberList: an immutable list of numbers that accepts null elements, built
 * from any collection by copying its elements, with a shared empty instance.
 */
module NumberLists {

  import opened Wrappers

  /** The class of a boxed number; Number.equals of two different classes is false. */
  datatype NumberKind = ByteKind | ShortKind | IntegerKind | LongKind | FloatKind | DoubleKind
                      | BigIntegerKind | BigDecimalKind | OtherKind(className: string)

  /** A java.lang.Number element, or null: its class and its value. */
  datatype Number = Null | Boxed(kind: NumberKind, value: real)

  datatype NumberList = NumberList(numbers: seq<Number>)
  {
    /** get(index): the element at index; an index outside the list is an IndexOutOfBoundsException. */
    function Get(index: int): (r: Result<Number, ListError>)
      ensures r.Success? <==> 0 <= index < |numbers|
      ensures r.Success? ==> r.value == numbers[index]
      ensures r.Failure? ==> r.error == IndexOutOfBounds(index, |numbers|)
    {
      if 0 <= index < |numbers| then Success(numbers[index]) else Failure(IndexOutOfBounds(index, |numbers|))
    }

    /** size(): the indices get() accepts are exactly those below it. */
    function Size(): (r: nat)
      ensures forall i: int :: Get(i).Success? <==> 0 <= i < r
    {
      |numbers|
    }

    /** elementCheck: every element is accepted, null included. */
    function ElementCheck(number: Number): (r: Result<Number, ListError>)
      ensures r == Success(number)
    {
      Success(number)
    }

    /** setElements: the list made from the collection, or this list when it has the same elements. */
    function SetElements(collection: Collection): (r: Result<NumberList, ListError>)
      ensures collection.NullCollection? ==> r == Failure(NullArgument("numbers"))
      ensures collection.Items? && collection.items == numbers ==> r == Success(this)
      ensures collection.Items? ==> r.Success? && r.value.numbers == collection.items
      ensures collection.Items? && collection.items == [] ==> r == Success(Empty)
      ensures collection.ListOf? ==> r == Success(collection.list)
    {
      var copy :- FromCollection(collection);
      if this == copy then Success(this) else Success(copy)
    }
  }

  /** The shared empty list. */
  const Empty: NumberList := NumberList([])

  /** The argument of with(): null, a list that is already a NumberList, or any other collection of numbers. */
  datatype Collection = NullCollection | ListOf(list: NumberList) | Items(items: seq<Number>)

  datatype ListError = NullArgument(parameter: string) | IndexOutOfBounds(index: int, size: nat)

  /** What with() answers for a collection. */
  function FromCollection(collection: Collection): (r: Result<NumberList, ListError>)
    ensures collection.NullCollection? ==> r == Failure(NullArgument("numbers"))
    ensures collection.ListOf? ==> r == Success(collection.list)
    ensures collection.Items? ==> r.Success? && r.value.numbers == collection.items
    ensures collection.Items? && collection.items == [] ==> r == Success(Empty)
  {
    match collection
    case NullCollection => Failure(NullArgument("numbers"))
    case ListOf(list) => Success(list)
    case Items(items) => if |items| == 0 then Success(Empty) else Success(NumberList(items))
  }

  /** with(): a NumberList is returned as it is; any other collection is copied element by element. */
  method With(collection: Collection) returns (r: Result<NumberList, ListError>)
    ensures r == FromCollection(collection)
    ensures collection.Items? ==> r.Success? && r.value.numbers == collection.items
  {
    match collection {
      case NullCollection =>
        r := Failure(NullArgument("numbers"));
      case ListOf(list) =>
        r := Success(list);
      case Items(items) =>
        var copy: seq<Number> := [];
        for i := 0 to |items|
          invariant copy == items[..i]
        {
          copy := copy + [items[i]];
        }
        assert copy == items;
        if |items| == 0 {
          r := Success(Empty);
        } else {
          r := Success(NumberList(copy));
        }
    }
  }

  /** The list made from a collection holds that collection's elements, in order, and no others. */
  lemma FromItems(items: seq<Number>)
    ensures FromCollection(Items(items)).Success?
    ensures var list := FromCollection(Items(items)).value;
      list.Size() == |items| && forall i | 0 <= i < |items| :: list.Get(i) == Success(items[i])
  {
  }

  /** Making a list from a NumberList, or setting a list's elements to its own, changes nothing. */
  lemma NoDoubleWrap(list: NumberList)
    ensures FromCollection(ListOf(list)) == Success(list)
    ensures list.SetElements(ListOf(list)) == Success(list)
    ensures list.SetElements(Items(list.numbers)) == Success(list)
  {
  }

  /** Setting the elements of any list to an empty collection gives the shared empty list. */
  lemma SetElementsEmpty(list: NumberList)
    ensures list.SetElements(Items([])) == Success(Empty)
  {
  }
}
