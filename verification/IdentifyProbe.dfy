/** The identification probe's record as the driver keeps it (src/common/qca_identify.c). */
module IdentifyProbe {
  import opened Bytes
  import opened Tlv
  import opened Replies
  import opened IdentifyLadder

  class Probe {
    const rates: array<nat>
    var index: nat
    var attempts: nat
    var answered: bool
    var done: bool
    var answeredRate: nat
    var version: SocVersion

    ghost predicate Valid()
      reads this, rates
    {
      rates.Length == RATES && forall i :: 0 <= i < RATES ==> rates[i] == Rate(i)
    }

    ghost function Model(): Identify
      reads this
    {
      Identify(index, attempts, answered, done, answeredRate)
    }

    constructor ()
      ensures Valid() && Model() == UNASKED && version == NO_VERSION
    {
      rates := new nat[RATES](i requires 0 <= i < RATES => Rate(i));
      index, attempts, answered, done, answeredRate := 0, 0, false, false, 0;
      version := NO_VERSION;
    }

    /** The next rate to try, lowest first; none once answered or when the ladder ends. */
    method NextRate() returns (rate: Option<nat>)
      requires Valid()
      modifies this
      ensures Valid() && Rung(Model(), rate) == IdentifyLadder.NextRate(old(Model()))
      ensures rate.Some? ==> index == old(index) + 1 && rate.value == Rate(old(index))
    {
      if answered {
        done := true;
        return None;
      }
      if done {
        return None;
      }
      if index >= RATES {
        done := true;
        return None;
      }
      rate := Some(rates[index]);
      index := index + 1;
      attempts := attempts + 1;
    }

    /** Takes the first version answer and credits it to the rung handed out last. */
    method OnPacket(p: seq<byte>) returns (taken: bool)
      requires Valid()
      modifies this
      ensures Valid() && Model() == IdentifyLadder.OnPacket(old(Model()), p)
      ensures taken == (answered && !old(answered))
      ensures version == if taken then ParseVersion(p).value else old(version)
    {
      if done || answered || attempts == 0 || attempts > RATES {
        return false;
      }
      var v := ParseVersion(p);
      if v.None? {
        return false;
      }
      version := v.value;
      answeredRate := rates[attempts - 1];
      answered := true;
      done := true;
      return true;
    }
  }
}
