/** include/thread_safe_container.h: every operation is one atomic step. */
module Container {
  import opened Text

  class ThreadSafeMap<K(==), V> {
    var container: map<K, V>

    constructor ()
      ensures container == map[]
    {
      container := map[];
    }

    method SetValue(key: K, value: V)
      modifies this
      ensures container == old(container)[key := value]
    {
      container := container[key := value];
    }

    /** Keeps the value of a key that is already there. */
    method Emplace(key: K, value: V)
      modifies this
      ensures container == if key in old(container) then old(container) else old(container)[key := value]
    {
      if key !in container {
        container := container[key := value];
      }
    }

    /** `None` where the code throws `std::out_of_range`. */
    method Get(key: K) returns (value: Option<V>)
      ensures value == if key in container then Some(container[key]) else None
    {
      value := if key in container then Some(container[key]) else None;
    }

    method Exists(key: K) returns (b: bool)
      ensures b <==> key in container
    {
      b := key in container;
    }

    method Erase(key: K)
      modifies this
      ensures container == old(container) - {key}
    {
      container := container - {key};
    }
  }
}
