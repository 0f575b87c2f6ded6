/** The growable, array-backed token buffer of tokenlist.h. Allocation is assumed to succeed. */
module TokenBuffer {
  import opened Tokens

  /** `TOKEN_LIST_INITIAL_CAPACITY`. */
  const INITIAL_CAPACITY: nat := 8

  class TokenList {
    var data: array<Token>
    var len: int
    var cap: int

    /** The buffer's invariant: `len` slots of the `cap`-slot array are in use. */
    ghost predicate Valid()
      reads this
    {
      0 <= len <= cap && cap == data.Length
    }

    /** The tokens appended so far, in order. */
    ghost function Contents(): seq<Token>
      reads this, data
      requires Valid()
    {
      data[..len]
    }

    /** `TokenList_Init`: an empty list with the initial capacity. */
    constructor Init()
      ensures Valid() && fresh(data)
      ensures len == 0 && cap == INITIAL_CAPACITY
      ensures Contents() == []
    {
      data := new Token[INITIAL_CAPACITY];
      len := 0;
      cap := INITIAL_CAPACITY;
    }

    /** `TokenList_Free`: the storage is released and the list is left empty with no capacity. */
    method Free()
      modifies this
      ensures Valid() && fresh(data)
      ensures len == 0 && cap == 0
      ensures Contents() == []
    {
      data := new Token[0];
      len := 0;
      cap := 0;
    }

    /** `TokenList_Get`: the idx-th token appended. */
    method Get(idx: int) returns (t: Token)
      requires Valid()
      requires 0 <= idx < len
      ensures t == Contents()[idx]
    {
      t := data[idx];
    }

    /**
     * `TokenList_Realloc`: move to storage of `newCap` slots; like `realloc`, the first
     * min(cap, newCap) slots keep their contents. The caller must not shrink below `len`.
     */
    method Realloc(newCap: int)
      requires Valid()
      requires len <= newCap
      modifies this
      ensures Valid() && fresh(data)
      ensures cap == newCap && len == old(len)
      ensures Contents() == old(Contents())
      ensures forall i :: 0 <= i < old(cap) && i < newCap ==> data[i] == old(data[i])
    {
      var temp := new Token[newCap];
      var i := 0;
      while i < cap && i < newCap
        modifies temp
        invariant 0 <= i <= newCap
        invariant i <= cap
        invariant forall j :: 0 <= j < i ==> temp[j] == data[j]
      {
        temp[i] := data[i];
        i := i + 1;
      }
      data := temp;
      cap := newCap;
    }

    /** `TokenList_TryRealloc`: a full list doubles its capacity; otherwise nothing changes. */
    method TryRealloc()
      requires Valid()
      modifies this
      ensures Valid() && len == old(len)
      ensures Contents() == old(Contents())
      ensures cap == if old(len) >= old(cap) then 2 * old(cap) else old(cap)
      ensures old(len) < old(cap) ==> data == old(data)
      ensures data == old(data) || fresh(data)
    {
      if len >= cap {
        Realloc(cap * 2);
      }
    }

    /**
     * `TokenList_Add`: append one token at index `len`. The capacity must be positive:
     * doubling a zero capacity leaves no slot to write.
     */
    method Add(token: Token)
      requires Valid()
      requires cap > 0
      modifies this, data
      ensures Valid() && len == old(len) + 1
      ensures Contents() == old(Contents()) + [token]
      ensures cap == if old(len) >= old(cap) then 2 * old(cap) else old(cap)
      ensures data == old(data) || fresh(data)
    {
      TryRealloc();
      data[len] := token;
      len := len + 1;
    }

    /** `TokenList_Clear`: forget the contents, keep the storage and its capacity. */
    method Clear()
      requires Valid()
      modifies this`len
      ensures Valid() && len == 0 && Contents() == []
      ensures cap == old(cap) && data == old(data)
    {
      len := 0;
    }

    /** `TokenList_Length`. */
    method Length() returns (n: int)
      requires Valid()
      ensures n == |Contents()|
    {
      n := len;
    }

    /** `TokenList_Capacity`. */
    method Capacity() returns (n: int)
      requires Valid()
      ensures n == data.Length
    {
      n := cap;
    }
  }
}
