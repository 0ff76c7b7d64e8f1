/**
 * RoxtermStrvRef (src/strv-ref.h): a string vector shared by counting
 * references; the last unref frees it.
 */
module StrvRef {
  class RoxtermStrvRef {
    var strv: seq<string>
    var count: int
    /** Whether g_strfreev and g_free have been applied to this object. */
    var freed: bool

    /** A live reference has at least one owner. */
    predicate Valid()
      reads this
    {
      freed || count >= 1
    }

    /** roxterm_strv_ref_new_take: wraps src itself, with one reference. */
    constructor NewTake(src: seq<string>)
      ensures Valid() && !freed
      ensures strv == src && count == 1
    {
      strv := src;
      count := 1;
      freed := false;
    }

    /**
     * roxterm_strv_ref_new: wraps a copy of src (g_strdupv), with one
     * reference; the copy has the same strings in the same order.
     */
    constructor New(src: seq<string>)
      ensures Valid() && !freed
      ensures strv == src && count == 1
    {
      var copy := StrDupv(src);
      strv := copy;
      count := 1;
      freed := false;
    }

    /** roxterm_strv_ref: one more reference; the result is the same object. */
    method Ref() returns (r: RoxtermStrvRef)
      requires Valid() && !freed
      modifies this
      ensures Valid() && !freed
      ensures r == this && count == old(count) + 1 && strv == old(strv)
    {
      count := count + 1;
      return this;
    }

    /**
     * roxterm_strv_ref_unref: one reference fewer; the object is freed
     * exactly when none is left, and the result is the new count.
     */
    method Unref() returns (a: int)
      requires Valid() && !freed
      modifies this
      ensures Valid()
      ensures a == old(count) - 1 && count == a
      ensures freed <==> a == 0
      ensures strv == old(strv)
    {
      count := count - 1;
      a := count;
      if a == 0 {
        freed := true;
      }
    }
  }

  /** g_strdupv: a copy of every string of the vector, in order. */
  method StrDupv(src: seq<string>) returns (copy: seq<string>)
    ensures copy == src
  {
    copy := [];
    var i := 0;
    while i < |src|
      invariant 0 <= i <= |src| && copy == src[..i]
    {
      copy := copy + [src[i]];
      i := i + 1;
    }
  }

  /** n calls of Ref followed by n + 1 calls of Unref free the vector, and not before the last. */
  method RefsBalance(src: seq<string>, n: nat) returns (r: RoxtermStrvRef)
    ensures r.freed && r.count == 0
  {
    r := new RoxtermStrvRef.NewTake(src);
    var i := 0;
    while i < n
      invariant 0 <= i <= n
      invariant r.Valid() && !r.freed && r.count == i + 1
    {
      var same := r.Ref();
      i := i + 1;
    }
    while i > 0
      invariant 0 <= i <= n
      invariant r.Valid() && !r.freed && r.count == i + 1
    {
      var a := r.Unref();
      i := i - 1;
    }
    var a := r.Unref();
  }
}
