/** `Matches.match`: does a record satisfy a filter. */
module Matches {
  import opened Values

  /** A filter is either an equality map (field name to required value) or an
      opaque predicate, called on the entry as it is. */
  datatype Filter = EqMap(fields: Record) | Pred(test: Entry -> bool)

  /** The meaning of a filter. An equality map is satisfied only when it has
      at least one key, the entry is defined, and every key's value is
      strictly equal to the entry's property of that name; so an empty map
      never matches anything. A predicate decides by itself. */
  predicate Satisfies(entry: Entry, filter: Filter)
  {
    match filter
    case Pred(test) => test(entry)
    case EqMap(fields) =>
      && |fields| > 0
      && entry.Present?
      && forall k :: k in fields ==> Get(entry.fields, k) == fields[k]
  }

  /** The matcher as written: a `for ... in` walk over the filter's keys, in an
      order the host chooses, that gives up at the first undefined entry or
      unequal property and records whether any key was seen. */
  method Match(entry: Entry, filter: Filter) returns (r: bool)
    ensures r == Satisfies(entry, filter)
  {
    match filter
    case Pred(test) =>
      r := test(entry);
    case EqMap(fields) =>
      var matchAll, matchSome := true, false;
      var pending := fields.Keys;
      while pending != {}
        invariant pending <= fields.Keys
        invariant matchAll
        invariant matchSome <==> pending != fields.Keys
        invariant matchSome ==> entry.Present?
        invariant forall k :: k in fields && k !in pending ==> entry.Present? && Get(entry.fields, k) == fields[k]
        decreases pending
      {
        var key :| key in pending;
        if entry.Missing? {
          matchAll := false;
          break;
        } else if fields[key] != Get(entry.fields, key) {
          matchAll := false;
          break;
        }
        matchSome := true;
        pending := pending - {key};
      }
      if matchSome && matchAll {
        assert fields.Keys != {};
        assert |fields.Keys| > 0;
      }
      r := matchSome && matchAll;
  }
}
