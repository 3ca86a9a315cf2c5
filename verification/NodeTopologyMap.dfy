/** The topology map of the StorageCluster API: label keys to the list of their values. */
module NodeTopologyMaps {
  import opened Collections
  import opened Text

  /** Every list of the map lists each value once. */
  ghost predicate DuplicateFree(labels: map<string, seq<string>>)
  {
    forall key :: key in labels ==> NoDuplicates(labels[key])
  }

  /** The values listed under a key; none when the key is missing. */
  function ValuesOf(labels: map<string, seq<string>>, key: string): seq<string>
  {
    if key in labels then labels[key] else []
  }

  class NodeTopologyMap {
    var Labels: map<string, seq<string>>

    constructor ()
      ensures Labels == map[]
    {
      Labels := map[];
    }

    method Contains(topologyKey: string, value: string) returns (found: bool)
      ensures found == (value in ValuesOf(Labels, topologyKey))
    {
      if topologyKey in Labels {
        var values := Labels[topologyKey];
        for i := 0 to |values|
          invariant value !in values[..i]
        {
          if value == values[i] { return true; }
        }
      }
      return false;
    }

    predicate ContainsKey(topologyKey: string)
      reads this
    {
      topologyKey in Labels
    }

    method Add(topologyKey: string, value: string)
      modifies this
      ensures Labels == old(Labels)[topologyKey := ValuesOf(old(Labels), topologyKey) + [value]]
      ensures DuplicateFree(old(Labels)) && value !in ValuesOf(old(Labels), topologyKey) ==> DuplicateFree(Labels)
    {
      if topologyKey !in Labels {
        Labels := Labels[topologyKey := []];
      }
      Labels := Labels[topologyKey := Labels[topologyKey] + [value]];
    }

    /** Any one label that contains the key answers; which one is up to the map's
        iteration order. With no such label the key comes back with no values. */
    method GetKeyValues(topologyKey: string) returns (key: string, values: seq<string>)
      ensures (exists lbl :: lbl in Labels && HasSubstring(lbl, topologyKey)) ==>
                key in Labels && HasSubstring(key, topologyKey) && values == Labels[key]
      ensures (forall lbl :: lbl in Labels ==> !HasSubstring(lbl, topologyKey)) ==>
                key == topologyKey && values == []
    {
      key, values := topologyKey, [];
      var todo := Labels.Keys;
      while todo != {}
        invariant todo <= Labels.Keys
        invariant key == topologyKey && values == []
        invariant forall lbl :: lbl in Labels.Keys - todo ==> !HasSubstring(lbl, topologyKey)
      {
        var lbl :| lbl in todo;
        todo := todo - {lbl};
        if HasSubstring(lbl, topologyKey) {
          return lbl, Labels[lbl];
        }
      }
    }
  }
}
