/**
 * The two generic containers of the core header: `Result<T, Status>`, a value paired with
 * a status, and `Array<T>`, a growable heap buffer with a count and a capacity.
 */
module Core {

  /**
   * A value paired with a status. In the C++ struct `ok` is a second name for `status`
   * (they share a union), so a `Result<T, bool>` is read through `status`.
   */
  datatype Result<T, S> = Result(value: T, status: S) {

    /**
     * `Result::Good`: carries the given value and status.
     */
    static function Good(value: T, status: S): (r: Result<T, S>)
      ensures r.value == value && r.status == status
    {
      Result(value, status)
    }

    /**
     * `Result::Bad`: carries the given status and the value-initialised `T{}`, which is
     * passed in as `zero` because Dafny has no generic default value.
     */
    static function Bad(zero: T, status: S): (r: Result<T, S>)
      ensures r.value == zero && r.status == status
    {
      Result(zero, status)
    }
  }

  /**
   * `Array<T>`: `count` live elements at the front of a buffer of `capacity` slots
   * (the C++ field `allocated`; that word is reserved in Dafny).
   * A freed or never-allocated array holds an empty buffer where the C++ holds `null`.
   * `blank` is the value-initialised element `T{}` that a default push stores.
   */
  class Array<T> {
    var count: int
    var data: array<T>
    var capacity: int
    const blank: T
    ghost var Repr: set<object>

    ghost predicate Valid()
      reads this, Repr
    {
      Repr == {this, data} && 0 <= count <= capacity && capacity == data.Length
    }

    /** The live elements, in order. */
    ghost function Elements(): seq<T>
      reads this, Repr
      requires Valid()
    {
      data[..count]
    }

    /** `Array<T> arr = {}`: no elements, no storage. */
    constructor (blank: T)
      ensures Valid() && fresh(Repr)
      ensures Elements() == [] && count == 0 && capacity == 0 && this.blank == blank
    {
      this.blank := blank;
      count := 0;
      data := new T[0](_ => blank);
      capacity := 0;
      Repr := {this, data};
    }

    /** `operator[]` used as a value: bounds-checked read. */
    function At(index: int): (r: T)
      reads this, Repr
      requires Valid() && 0 <= index < count
      ensures r == Elements()[index]
    {
      data[index]
    }

    /** `operator[]` used as an assignment target: bounds-checked write. */
    method Set(index: int, item: T)
      requires Valid() && 0 <= index < count
      modifies Repr
      ensures Valid() && Repr == old(Repr)
      ensures Elements() == old(Elements())[index := item]
      ensures count == old(count) && capacity == old(capacity)
    {
      data[index] := item;
    }

    /**
     * `ArrayReserve`: grows the buffer to exactly `requested` slots when it is smaller,
     * keeping every slot of the old buffer (as `realloc` does); otherwise does nothing.
     */
    method Reserve(requested: int)
      requires Valid()
      modifies Repr
      ensures Valid() && fresh(Repr - old(Repr))
      ensures old(capacity) >= requested ==> capacity == old(capacity) && data == old(data)
      ensures old(capacity) < requested ==> capacity == requested
      ensures data[..old(capacity)] == old(data[..])
      ensures count == old(count) && Elements() == old(Elements())
    {
      if capacity >= requested {
        return;
      }
      var newData := new T[requested](_ => blank);
      var i := 0;
      while i < capacity
        invariant Valid() && Repr == old(Repr) && data == old(data) && count == old(count)
        invariant capacity < requested == newData.Length && data[..] == old(data[..])
        invariant 0 <= i <= capacity
        invariant newData[..i] == data[..i]
      {
        newData[i] := data[i];
        i := i + 1;
      }
      assert newData[..capacity] == data[..];
      assert newData[..count] == newData[..capacity][..count];
      data := newData;
      capacity := requested;
      Repr := {this, data};
    }

    /** `ArrayFree`: releases the buffer; count and capacity drop to zero. */
    method Free()
      requires Valid()
      modifies Repr
      ensures Valid() && fresh(Repr - old(Repr))
      ensures count == 0 && capacity == 0 && Elements() == []
    {
      data := new T[0](_ => blank);
      count := 0;
      capacity := 0;
      Repr := {this, data};
    }

    /**
     * `ArrayPush(arr)`: appends `T{}`. When the buffer is full it first reserves
     * `capacity * 2 + 8` slots, so the push always has room.
     */
    method PushDefault()
      requires Valid()
      modifies Repr
      ensures Valid() && fresh(Repr - old(Repr))
      ensures Elements() == old(Elements()) + [blank]
      ensures count == old(count) + 1 && count <= capacity
      ensures capacity == if old(count) >= old(capacity) then old(capacity) * 2 + 8 else old(capacity)
    {
      if count >= capacity {
        Reserve(capacity * 2 + 8);
      }
      data[count] := blank;
      count := count + 1;
    }

    /** `ArrayPush(arr, item)`: a default push whose new last element is then set to `item`. */
    method Push(item: T)
      requires Valid()
      modifies Repr
      ensures Valid() && fresh(Repr - old(Repr))
      ensures Elements() == old(Elements()) + [item]
      ensures count == old(count) + 1 && count <= capacity
      ensures capacity == if old(count) >= old(capacity) then old(capacity) * 2 + 8 else old(capacity)
    {
      PushDefault();
      data[count - 1] := item;
    }

    /** `ArrayPop`: drops the last element; the buffer is kept. */
    method Pop()
      requires Valid() && count > 0
      modifies Repr
      ensures Valid() && Repr == old(Repr)
      ensures Elements() == old(Elements())[..old(count) - 1]
      ensures count == old(count) - 1 && capacity == old(capacity)
    {
      count := count - 1;
    }

    /** `ArrayClear`: forgets every element; the buffer is kept. */
    method Clear()
      requires Valid()
      modifies Repr
      ensures Valid() && Repr == old(Repr)
      ensures Elements() == [] && count == 0 && capacity == old(capacity)
    {
      count := 0;
    }
  }
}
