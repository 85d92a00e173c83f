/**
 * The singly linked list. The chain of nodes is modelled as the sequence of their data, head
 * first; walking the `next` links becomes walking the indices.
 */
module Lists {
  import opened Common

  /** list_get_node's result: the node at index, or NULL past the end. */
  function NodeAt<T>(s: seq<T>, index: nat): (r: Option<T>)
    ensures r.Some? <==> index < |s|
  {
    if index < |s| then Some(s[index]) else None
  }

  /** rrr_list_insert's result: the new element ends up at position index. */
  function Inserted<T>(s: seq<T>, x: T, index: nat): seq<T>
    requires index <= |s|
  {
    s[..index] + [x] + s[index..]
  }

  /** After an insert at k the new element is found at k, earlier ones where they were, later ones one further on. */
  lemma InsertedNodes<T>(s: seq<T>, x: T, k: nat, j: nat)
    requires k <= |s|
    ensures |Inserted(s, x, k)| == |s| + 1
    ensures NodeAt(Inserted(s, x, k), k) == Some(x)
    ensures j < k ==> NodeAt(Inserted(s, x, k), j) == NodeAt(s, j)
    ensures k < j ==> NodeAt(Inserted(s, x, k), j) == NodeAt(s, j - 1)
  {
  }

  /** Appending is inserting at the end. */
  lemma AppendIsInsertAtEnd<T>(s: seq<T>, x: T)
    ensures s + [x] == Inserted(s, x, |s|)
  {
  }

  /** list_t: the chain of nodes from the head. */
  class LinkedList<T> {
    var elements: seq<T>

    /** EMPTY_LIST. */
    constructor ()
      ensures elements == []
    {
      elements := [];
    }

    /** list_size: counts the nodes up to the NULL next link. */
    method Size() returns (n: nat)
      ensures n == |elements|
    {
      n := 0;
      while n < |elements|
        invariant n <= |elements|
      {
        n := n + 1;
      }
    }

    /** list_get_node: follows index next links from the head, giving NULL when the chain ends first. */
    method GetNode(index: nat) returns (r: Option<T>)
      ensures r == NodeAt(elements, index)
    {
      if |elements| == 0 {
        return None;
      }
      var i := 0;
      while i < index
        invariant i <= index && i < |elements|
      {
        if i + 1 == |elements| {
          return None;
        }
        i := i + 1;
      }
      return Some(elements[i]);
    }

    /** rrr_list_append: the new node becomes the last. */
    method Append(x: T)
      modifies this
      ensures elements == old(elements) + [x]
    {
      elements := elements + [x];
    }

    /**
     * rrr_list_insert: at 0 the new node becomes the head; otherwise it follows the node at
     * index - 1, which must exist (the code dereferences it).
     */
    method Insert(x: T, index: nat)
      requires index <= |elements|
      modifies this
      ensures elements == Inserted(old(elements), x, index)
    {
      if index == 0 {
        elements := [x] + elements;
      } else {
        var prev := GetNode(index - 1);
        elements := elements[..index] + [x] + elements[index..];
      }
    }
  }
}
