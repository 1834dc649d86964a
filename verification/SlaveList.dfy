/** `SlaveList` (src/base/SlaveList.cpp): the listed slaves by bus address. */
module SlaveLists {
  import opened Words

  datatype Option<+T> = None | Some(value: T)

  datatype Slave = Slave(address: u8, slaveType: u8)

  class SlaveList {
    var slaves: map<u8, Slave>

    ghost predicate Valid()
      reads this
    {
      forall a :: a in slaves ==> slaves[a].address == a
    }

    constructor ()
      ensures Valid() && slaves == map[]
    {
      slaves := map[];
    }

    /** A slave is entered at its own address, and only where none is listed. */
    method AddSlave(slave: Slave) returns (added: bool)
      requires Valid()
      modifies this
      ensures Valid() && (added <==> slave.address !in old(slaves))
      ensures slaves == if added then old(slaves)[slave.address := slave] else old(slaves)
    {
      added := slave.address !in slaves;
      if added {
        slaves := slaves[slave.address := slave];
      }
    }

    method RemoveSlave(index: u8) returns (removed: Option<Slave>)
      requires Valid()
      modifies this
      ensures Valid() && slaves == old(slaves) - {index}
      ensures removed == if index in old(slaves) then Some(old(slaves)[index]) else None
    {
      removed := None;
      if index in slaves {
        removed := Some(slaves[index]);
        slaves := slaves - {index};
      }
    }

    function GetSlave(index: u8): Option<Slave>
      reads this
    {
      if index in slaves then Some(slaves[index]) else None
    }
  }
}
