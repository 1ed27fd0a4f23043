/**
 * The list of saved connection profiles (connections/manager.go): the
 * profiles in the order the settings hold them, and the index of the one the
 * user picked (-1 for none).
 */
module Connections {

  /** One saved S3 connection (config.S3Config). */
  datatype Profile = Profile(name: string, endpoint: string, accessKey: string, secretKey: string,
                             bucket: string, prefix: string, region: string, useSsl: bool)

  /** The list with the entry at `index` cut out, the rest in order. */
  function Without<T>(list: seq<T>, index: int): (r: seq<T>)
    requires 0 <= index < |list|
    ensures |r| == |list| - 1
    ensures forall i :: 0 <= i < index ==> r[i] == list[i]
    ensures forall i :: index <= i < |r| ==> r[i] == list[i + 1]
  {
    list[..index] + list[index + 1..]
  }

  /** Cutting out an entry and putting it back where it was restores the list. */
  lemma WithoutThenInsert<T>(list: seq<T>, index: int)
    requires 0 <= index < |list|
    ensures Without(list, index)[..index] + [list[index]] + Without(list, index)[index..] == list
  {
    var r := Without(list, index);
    assert r[..index] == list[..index];
    assert r[index..] == list[index + 1..];
  }

  /** Removing the last entry undoes adding it. */
  lemma RemoveUndoesAdd<T>(list: seq<T>, p: T)
    ensures Without(list + [p], |list|) == list
  {
    assert (list + [p])[..|list|] == list;
  }

  class Manager {
    /** The profiles, in order. */
    var connections: seq<Profile>
    /** The picked profile's index, or -1. */
    var selected: int
    /** The settings' own list, which Save writes the profiles back to. */
    var settingsConnections: seq<Profile>

    /** NewManager: the settings' profiles, nothing picked. */
    constructor (settings: seq<Profile>)
      ensures connections == settings && settingsConnections == settings && selected == -1
    {
      connections := settings;
      selected := -1;
      settingsConnections := settings;
    }

    /** SetSelected: the next GetSelected returns this index. */
    method SetSelected(index: int)
      modifies this`selected
      ensures GetSelected() == index
    {
      selected := index;
    }

    /** The index last passed to SetSelected, or -1 if there was none. */
    function GetSelected(): int
      reads this`selected
    {
      selected
    }

    function Count(): nat
      reads this`connections
    {
      |connections|
    }

    /** The profile at `index`; any other index would make the slice access panic. */
    function Get(index: int): (p: Profile)
      reads this`connections
      requires 0 <= index < Count()
      ensures p in connections
    {
      connections[index]
    }

    /** Add: the profile goes to the end; the others and the selection stay. */
    method Add(p: Profile)
      modifies this`connections
      ensures connections == old(connections) + [p]
      ensures Count() == old(Count()) + 1 && Get(Count() - 1) == p
      ensures forall i :: 0 <= i < old(Count()) ==> Get(i) == old(Get(i))
      ensures GetSelected() == old(GetSelected())
    {
      connections := connections + [p];
    }

    /**
     * Remove: an index outside the list changes nothing; otherwise that
     * profile is cut out and the rest keep their order. The selection stays.
     */
    method Remove(index: int)
      modifies this`connections
      ensures index < 0 || index >= old(Count()) ==> connections == old(connections)
      ensures 0 <= index < old(Count()) ==> connections == Without(old(connections), index) && Count() == old(Count()) - 1
      ensures GetSelected() == old(GetSelected())
    {
      if index < 0 || index >= |connections| {
        return;
      }
      connections := connections[..index] + connections[index + 1..];
    }

    /** Save, up to the write to disk: the settings get the current profiles. */
    method Save()
      modifies this`settingsConnections
      ensures settingsConnections == connections
    {
      settingsConnections := connections;
    }
  }
}
