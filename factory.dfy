/** The keyed builder registry: builders registered under integer keys and
    looked up to build a value from keyword arguments. */
module Factory {
  import opened Values

  /** A registered builder: a falsy object (None, say) or a callable whose
      result, or exception, is whatever the callable gives for the keyword
      arguments. */
  datatype Builder<P> = Falsy | Callable(call: Dict -> Result<P>)

  /** `create(key, **kwargs)` against these builders. */
  function Built<P>(builders: map<int, Builder<P>>, key: int, kwargs: Dict): (r: Result<P>)
    ensures key !in builders || builders[key].Falsy? ==> r == Err(ValueError(Int(key)))
    ensures key in builders && builders[key].Callable? ==> r == builders[key].call(kwargs)
  {
    if key in builders && builders[key].Callable? then builders[key].call(kwargs)
    else Err(ValueError(Int(key)))
  }

  class TransactionFactory<P> {
    var builders: map<int, Builder<P>>

    /** `__init__`: no builders. */
    constructor ()
      ensures builders == map[]
    {
      builders := map[];
    }

    /** `register_builder(key, builder)` */
    method RegisterBuilder(key: int, builder: Builder<P>)
      modifies this
      ensures builders == old(builders)[key := builder]
    {
      builders := builders[key := builder];
    }

    /** `create(key, **kwargs)` */
    method Create(key: int, kwargs: Dict) returns (r: Result<P>)
      ensures r == Built(builders, key, kwargs)
      ensures key !in builders || builders[key].Falsy? ==> r == Err(ValueError(Int(key)))
    {
      var builder: Option<Builder<P>> := if key in builders then Some(builders[key]) else None;
      if builder.None? || builder.value.Falsy? {
        return Err(ValueError(Int(key)));
      }
      r := builder.value.call(kwargs);
    }
  }

  /** A fresh factory builds nothing. */
  lemma EmptyFails<P>(key: int, kwargs: Dict)
    ensures Built<P>(map[], key, kwargs) == Err(ValueError(Int(key)))
  {
  }

  /** After registering a callable under a key, creating with that key
      calls it. */
  lemma RegisteredBuilds<P>(builders: map<int, Builder<P>>, key: int, call: Dict -> Result<P>, kwargs: Dict)
    ensures Built(builders[key := Callable(call)], key, kwargs) == call(kwargs)
  {
  }

  /** Registering under one key leaves the others as they were. */
  lemma RegisterOther<P>(builders: map<int, Builder<P>>, key: int, builder: Builder<P>, other: int, kwargs: Dict)
    requires other != key
    ensures Built(builders[key := builder], other, kwargs) == Built(builders, other, kwargs)
  {
  }

  /** Registering again replaces the earlier builder. */
  lemma Reregister<P>(builders: map<int, Builder<P>>, key: int, first: Builder<P>, second: Builder<P>, kwargs: Dict)
    ensures Built(builders[key := first][key := second], key, kwargs) == Built(builders[key := second], key, kwargs)
  {
  }
}
