/**
 * The singly linked list (threads/list.cc) that holds ready threads, waiters and pending interrupts.
 * The list object is proved against sequences: Append adds at the end, SortedInsert before the first
 * element with a larger key, SortedRemove takes the head.
 */
module Lists {
  import opened Collections

  datatype Entry<T> = Entry(item: T, key: int)

  /** The index of the first entry with a key larger than key, or the length of the list. */
  function Position<T>(s: seq<Entry<T>>, key: int): (p: nat)
    ensures p <= |s| && (p < |s| ==> key < s[p].key) && forall i :: 0 <= i < p ==> s[i].key <= key
  {
    if s == [] || key < s[0].key then 0 else 1 + Position(s[1..], key)
  }

  function InsertSorted<T>(s: seq<Entry<T>>, x: Entry<T>): seq<Entry<T>> {
    s[..Position(s, x.key)] + [x] + s[Position(s, x.key)..]
  }

  ghost predicate Sorted<T>(s: seq<Entry<T>>) {
    forall i, j :: 0 <= i < j < |s| ==> s[i].key <= s[j].key
  }

  /** Insertion adds the entry once and loses none. */
  lemma InsertConserves<T>(s: seq<Entry<T>>, x: Entry<T>)
    ensures multiset(InsertSorted(s, x)) == multiset(s) + multiset{x}
  {
    hide Position;
    var p := Position(s, x.key);
    assert s == s[..p] + s[p..];
  }

  lemma InsertedAt<T>(s: seq<Entry<T>>, x: Entry<T>, i: nat)
    requires i < |InsertSorted(s, x)|
    ensures |InsertSorted(s, x)| == |s| + 1
    ensures var p := Position(s, x.key); InsertSorted(s, x)[i] == if i < p then s[i] else if i == p then x else s[i - 1]
  {
    hide Position;
  }

  /** Insertion keeps a list sorted. */
  lemma InsertKeepsSorted<T>(s: seq<Entry<T>>, x: Entry<T>)
    requires Sorted(s)
    ensures Sorted(InsertSorted(s, x))
  {
    hide Position, InsertSorted;
    var p, r := Position(s, x.key), InsertSorted(s, x);
    forall i, j | 0 <= i < j < |r| ensures r[i].key <= r[j].key {
      InsertedAt(s, x, i);
      InsertedAt(s, x, j);
    }
  }

  class ListElement<T> {
    const item: T
    const key: int
    var next: ListElement?<T>

    constructor (item: T, key: int)
      ensures this.item == item && this.key == key && next == null
    {
      this.item, this.key, next := item, key, null;
    }
  }

  class List<T> {
    var first: ListElement?<T>
    var last: ListElement?<T>
    ghost var spine: seq<ListElement<T>> // the elements from first to last
    ghost var elements: set<ListElement<T>> // all that were ever in the list

    ghost predicate Valid()
      reads this, elements
    {
      && (forall i :: 0 <= i < |spine| ==> spine[i] in elements)
      && (spine == [] ==> first == null && last == null)
      && (spine != [] ==> first == spine[0] && last == spine[|spine| - 1] && spine[|spine| - 1].next == null)
      && (forall i :: 0 <= i < |spine| - 1 ==> spine[i].next == spine[i + 1])
      && (forall i, j :: 0 <= i < j < |spine| ==> spine[i] != spine[j])
    }

    ghost function Contents(): (s: seq<Entry<T>>)
      reads this
      ensures |s| == |spine|
    {
      seq(|spine|, i requires 0 <= i < |spine| reads this => Entry(spine[i].item, spine[i].key))
    }

    constructor ()
      ensures Valid() && elements == {} && Contents() == []
    {
      first, last, spine, elements := null, null, [], {};
    }

    method IsEmpty() returns (empty: bool)
      requires Valid()
      ensures empty <==> Contents() == []
    {
      empty := first == null;
    }

    /** Put an element at the end of the list. */
    method LinkLast(element: ListElement<T>)
      requires Valid() && element !in spine && element.next == null
      modifies this, elements
      ensures Valid() && elements == old(elements) + {element} && spine == old(spine) + [element]
      ensures Contents() == old(Contents()) + [Entry(element.item, element.key)]
    {
      if first == null {
        first := element;
      } else {
        last.next := element;
      }
      last := element;
      spine, elements := spine + [element], elements + {element};
    }

    /** Put an element after the one at index i. */
    method LinkAfter(ptr: ListElement<T>, element: ListElement<T>, ghost i: nat)
      requires Valid() && element !in spine && i + 1 < |spine| && ptr == spine[i]
      modifies this, elements, element
      ensures Valid() && elements == old(elements) + {element} && spine == old(spine)[..i + 1] + [element] + old(spine)[i + 1..]
      ensures Contents() == old(Contents())[..i + 1] + [Entry(element.item, element.key)] + old(Contents())[i + 1..]
    {
      element.next := ptr.next;
      ptr.next := element;
      spine, elements := spine[..i + 1] + [element] + spine[i + 1..], elements + {element};
    }

    method Append(item: T)
      requires Valid()
      modifies this, elements
      ensures Valid() && fresh(elements - old(elements))
      ensures Contents() == old(Contents()) + [Entry(item, 0)]
    {
      var element := new ListElement<T>(item, 0);
      LinkLast(element);
    }

    /** Walk to the first element with a larger key, and link the new one in before it. */
    method SortedInsert(item: T, sortKey: int)
      requires Valid()
      modifies this, elements
      ensures Valid() && fresh(elements - old(elements))
      ensures Contents() == InsertSorted(old(Contents()), Entry(item, sortKey))
    {
      ghost var s := Contents();
      var element := new ListElement<T>(item, sortKey);
      if first == null {
        LinkLast(element);
      } else if sortKey < first.key {
        assert s[0].key == first.key;
        element.next := first;
        first := element;
        spine, elements := [element] + spine, elements + {element};
      } else {
        var ptr := PlaceFor(sortKey);
        ghost var i := Position(s, sortKey) - 1;
        if ptr.next == null {
          LinkLast(element);
        } else {
          LinkAfter(ptr, element, i);
        }
      }
    }

    /** The last element before the first with a larger key. */
    method PlaceFor(sortKey: int) returns (ptr: ListElement<T>)
      requires Valid() && spine != [] && Contents()[0].key <= sortKey
      ensures var i := Position(Contents(), sortKey) - 1; 0 <= i < |spine| && ptr == spine[i]
    {
      ghost var s := Contents();
      ptr := first;
      ghost var i := 0;
      while ptr.next != null && ptr.next.key <= sortKey
        invariant 0 <= i < |spine| && ptr == spine[i] && forall j :: 0 <= j <= i ==> s[j].key <= sortKey
        decreases |spine| - i
      {
        ptr, i := ptr.next, i + 1;
      }
      PositionIs(s, sortKey, i + 1);
    }

    /** The head of the list and its key, or nothing. */
    method SortedRemove() returns (head: Option<Entry<T>>)
      requires Valid()
      modifies this
      ensures Valid() && elements == old(elements)
      ensures if old(Contents()) == [] then head == None && Contents() == []
              else head == Some(old(Contents())[0]) && Contents() == old(Contents())[1..]
    {
      if first == null {
        return None;
      }
      head := Some(Entry(first.item, first.key));
      if first == last {
        first, last := null, null;
      } else {
        first := first.next;
      }
      spine := spine[1..];
    }
  }

  lemma {:induction false} PositionIs<T>(s: seq<Entry<T>>, key: int, p: nat)
    requires p <= |s| && (p < |s| ==> key < s[p].key) && forall i :: 0 <= i < p ==> s[i].key <= key
    ensures Position(s, key) == p
  {
  }
}
