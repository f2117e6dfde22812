/** The interrupt flag of the processor and the functions of kernel/interrupt.c that read and change it. */
module Interrupts {

  /** EFLAGS, of which only IF matters here. */
  class Eflags {
    var on: bool

    constructor (on: bool)
      ensures this.on == on
    {
      this.on := on;
    }

    /** intr_enable(): returns the flag as it was. */
    method IntrEnable() returns (was: bool)
      modifies this
      ensures was == old(on) && on
    {
      if on {
        was := true;
      } else {
        on := true;
        was := false;
      }
    }

    /** intr_disable(): returns the flag as it was. */
    method IntrDisable() returns (was: bool)
      modifies this
      ensures was == old(on) && !on
    {
      if on {
        was := true;
        on := false;
      } else {
        was := false;
      }
    }

    /** intr_set_status(): returns the flag as it was. */
    method IntrSetStatus(status: bool) returns (was: bool)
      modifies this
      ensures was == old(on) && on == status
    {
      if status { was := IntrEnable(); } else { was := IntrDisable(); }
    }
  }
}
