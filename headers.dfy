/** The header list of a response, as the host runtime's Headers object keeps
    it (section 2.2.2 "Headers" of the WHATWG Fetch Standard): header names are
    compared case-insensitively and "set" replaces any existing value. The list
    is modelled as a map from the lower-cased name to the value, so that two
    spellings of one name always denote the same entry. */
module Headers {
  import opened Ascii
  import opened Wrappers

  /** A header map whose keys are all in lower-case form. */
  type HeaderMap = m: map<string, string> | forall k :: k in m ==> IsLowerCase(k)
    witness map[]

  /** The value stored under the given name, in any spelling of it. */
  function Get(h: HeaderMap, name: string): Option<string>
  {
    if Lower(name) in h then Some(h[Lower(name)]) else None
  }

  /** Headers.set: overwrite (or add) the entry for name. */
  function Set(h: HeaderMap, name: string, value: string): (r: HeaderMap)
    ensures Get(r, name) == Some(value)
    ensures r.Keys == h.Keys + {Lower(name)}
    ensures forall k :: k in h && k != Lower(name) ==> r[k] == h[k]
  {
    h[Lower(name) := value]
  }

  /** The lower-cased names of a list of (name, value) pairs. */
  function NamesOf(pairs: seq<(string, string)>): set<string>
  {
    set i | 0 <= i < |pairs| :: Lower(pairs[i].0)
  }

  /** No later pair in the list has the same name as pair i. */
  predicate LastWithName(pairs: seq<(string, string)>, i: nat)
    requires i < |pairs|
  {
    forall j :: i < j < |pairs| ==> Lower(pairs[j].0) != Lower(pairs[i].0)
  }

  /** Successive Headers.set calls, one per pair, first to last. */
  function SetAll(h: HeaderMap, pairs: seq<(string, string)>): HeaderMap
    decreases |pairs|
  {
    if pairs == [] then h else SetAll(Set(h, pairs[0].0, pairs[0].1), pairs[1..])
  }

  lemma NamesOfCons(pairs: seq<(string, string)>)
    requires pairs != []
    ensures NamesOf(pairs) == {Lower(pairs[0].0)} + NamesOf(pairs[1..])
  {
    var rest := pairs[1..];
    forall k | k in NamesOf(pairs) ensures k in {Lower(pairs[0].0)} + NamesOf(rest) {
      var i :| 0 <= i < |pairs| && k == Lower(pairs[i].0);
      if i > 0 { assert k == Lower(rest[i - 1].0); }
    }
    forall k | k in NamesOf(rest) ensures k in NamesOf(pairs) {
      var i :| 0 <= i < |rest| && k == Lower(rest[i].0);
      assert k == Lower(pairs[i + 1].0);
    }
  }

  /** Successive sets add exactly the names set to the map. */
  lemma {:induction false} SetAllKeys(h: HeaderMap, pairs: seq<(string, string)>)
    ensures SetAll(h, pairs).Keys == h.Keys + NamesOf(pairs)
    decreases |pairs|
  {
    if pairs != [] {
      SetAllKeys(Set(h, pairs[0].0, pairs[0].1), pairs[1..]);
      NamesOfCons(pairs);
    }
  }

  /** Successive sets leave every entry whose name is not set unchanged. */
  lemma {:induction false} SetAllKeepsOthers(h: HeaderMap, pairs: seq<(string, string)>, k: string)
    requires k in h && k !in NamesOf(pairs)
    ensures k in SetAll(h, pairs) && SetAll(h, pairs)[k] == h[k]
    decreases |pairs|
  {
    if pairs != [] {
      NamesOfCons(pairs);
      SetAllKeepsOthers(Set(h, pairs[0].0, pairs[0].1), pairs[1..], k);
    }
  }

  /** After successive sets, the last value set under a name is the one kept. */
  lemma {:induction false} SetAllLastWins(h: HeaderMap, pairs: seq<(string, string)>, i: nat)
    requires i < |pairs| && LastWithName(pairs, i)
    ensures Lower(pairs[i].0) in SetAll(h, pairs)
    ensures SetAll(h, pairs)[Lower(pairs[i].0)] == pairs[i].1
    decreases |pairs|
  {
    var h1 := Set(h, pairs[0].0, pairs[0].1);
    var rest := pairs[1..];
    if i == 0 {
      assert Lower(pairs[0].0) !in NamesOf(rest);
      SetAllKeepsOthers(h1, rest, Lower(pairs[0].0));
    } else {
      assert rest[i - 1] == pairs[i];
      assert LastWithName(rest, i - 1) by {
        forall j | i - 1 < j < |rest| ensures Lower(rest[j].0) != Lower(rest[i - 1].0) {
          assert rest[j] == pairs[j + 1];
        }
      }
      SetAllLastWins(h1, rest, i - 1);
    }
  }

  /** The quantified forms of the two lemmas above. */
  lemma SetAllKeepsAll(h: HeaderMap, pairs: seq<(string, string)>)
    ensures forall k :: k in h && k !in NamesOf(pairs) ==> k in SetAll(h, pairs) && SetAll(h, pairs)[k] == h[k]
  {
    forall k | k in h && k !in NamesOf(pairs)
      ensures k in SetAll(h, pairs) && SetAll(h, pairs)[k] == h[k]
    {
      SetAllKeepsOthers(h, pairs, k);
    }
  }

  /** Every pair's name maps to the pair's value, in any spelling. */
  predicate AllSet(h: HeaderMap, pairs: seq<(string, string)>)
  {
    forall i :: 0 <= i < |pairs| ==> Get(h, pairs[i].0) == Some(pairs[i].1)
  }

  /** No two pairs share a name, ignoring case. */
  predicate DistinctNames(pairs: seq<(string, string)>)
  {
    forall i :: 0 <= i < |pairs| ==> LastWithName(pairs, i)
  }

  /** Successive sets of pairs with distinct names leave every one of them set. */
  lemma SetAllSetsAll(h: HeaderMap, pairs: seq<(string, string)>)
    requires DistinctNames(pairs)
    ensures AllSet(SetAll(h, pairs), pairs)
  {
    forall i | 0 <= i < |pairs|
      ensures Get(SetAll(h, pairs), pairs[i].0) == Some(pairs[i].1)
    {
      SetAllLastWins(h, pairs, i);
    }
  }

  /** Setting the same distinct-named pairs a second time changes nothing. */
  lemma SetAllIdempotent(h: HeaderMap, pairs: seq<(string, string)>)
    requires DistinctNames(pairs)
    ensures SetAll(SetAll(h, pairs), pairs) == SetAll(h, pairs)
  {
    var once := SetAll(h, pairs);
    var twice := SetAll(once, pairs);
    SetAllKeys(h, pairs);
    SetAllKeys(once, pairs);
    SetAllKeepsAll(once, pairs);
    SetAllSetsAll(h, pairs);
    SetAllSetsAll(once, pairs);
    forall k | k in twice ensures twice[k] == once[k] {
      if k in NamesOf(pairs) {
        var i :| 0 <= i < |pairs| && k == Lower(pairs[i].0);
        assert Get(once, pairs[i].0) == Some(pairs[i].1);
        assert Get(twice, pairs[i].0) == Some(pairs[i].1);
      }
    }
  }
}
