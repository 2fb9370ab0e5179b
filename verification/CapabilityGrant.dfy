/**
  What a child process is granted, from below: every capability that its parent has and that
  was asked for.
 */
module CapabilityGrant {
  import opened Wrappers
  import opened Capability

  /** A child gets everything it may: the greatest mask within its parent's, and within the mask
      asked for without the control bit, or within the default. */
  lemma ChildGreatest(caps: Mask, mask: Mask, custom: bool, d: Mask)
    ensures ChildCaps(caps, mask, custom).Some? ==>
              (Sub(d, ChildCaps(caps, mask, custom).value)
               <==> Sub(d, caps) && if custom then Sub(d, mask) && Sub(d, 0x7fff_ffff_ffff_ffff)
                                    else Sub(d, USER_DEFAULT))
  {
    hide *;
    if custom && ChildCaps(caps, mask, true).Some? {
      CustomGreatest(caps, mask, d);
    } else if !custom {
      DefaultGreatest(caps, mask, d);
    }
  }

  lemma CustomGreatest(caps: Mask, mask: Mask, d: Mask)
    requires ChildCaps(caps, mask, true).Some?
    ensures Sub(d, ChildCaps(caps, mask, true).value)
            <==> Sub(d, caps) && Sub(d, mask) && Sub(d, 0x7fff_ffff_ffff_ffff)
  {
    hide Sub;
    hide HasCapability;
    MeetThree(caps, mask, !PROC_CAP_ENABLE, d);
    NotControl(d);
  }

  lemma DefaultGreatest(caps: Mask, mask: Mask, d: Mask)
    ensures ChildCaps(caps, mask, false).Some?
    ensures Sub(d, ChildCaps(caps, mask, false).value) <==> Sub(d, caps) && Sub(d, USER_DEFAULT)
  {
    hide Sub;
    hide HasCapability;
    Meet(caps, USER_DEFAULT, d);
  }

  lemma MeetThree(a: Mask, b: Mask, c: Mask, d: Mask)
    ensures Sub(d, a & (b & c)) <==> Sub(d, a) && Sub(d, b) && Sub(d, c)
  {
    hide Sub;
    Meet(a, b & c, d);
    Meet(b, c, d);
  }

  lemma NotControl(d: Mask)
    ensures Sub(d, !PROC_CAP_ENABLE) <==> Sub(d, 0x7fff_ffff_ffff_ffff)
  {
    assert !PROC_CAP_ENABLE == 0x7fff_ffff_ffff_ffff;
  }

  lemma Meet(a: Mask, b: Mask, d: Mask)
    ensures Sub(d, a & b) <==> Sub(d, a) && Sub(d, b)
  {
    if Sub(d, a & b) {
      MeetBelow(a, b);
      MeetBelow(b, a);
      assert a & b == b & a;
      SubTrans(d, a & b, a);
      SubTrans(d, b & a, b);
    }
    if Sub(d, a) && Sub(d, b) {
      MeetAbove(a, b, d);
    }
    hide Sub;
  }

  lemma MeetBelow(a: Mask, b: Mask)
    ensures Sub(a & b, a)
  {
  }

  lemma MeetAbove(a: Mask, b: Mask, d: Mask)
    requires Sub(d, a) && Sub(d, b)
    ensures Sub(d, a & b)
  {
    NotBoth(a, b);
    Spread(d, !a, !b);
  }

  lemma NotBoth(a: Mask, b: Mask)
    ensures !(a & b) == !a | !b
  {
  }

  lemma Spread(d: Mask, x: Mask, y: Mask)
    requires d & x == 0 && d & y == 0
    ensures d & (x | y) == 0
  {
  }
}
