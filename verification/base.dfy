/** Bytes, C strings and the option type used throughout the model. */
module Base {

  type byte = x: int | 0 <= x < 256
  type bytes = seq<byte>

  /** Success with a value, or the source's `return false`. */
  datatype Option<+T> = None | Some(value: T) {
    predicate IsFailure() {
      None?
    }

    function PropagateFailure<U>(): Option<U>
      requires None?
    {
      None
    }

    function Extract(): T
      requires Some?
    {
      value
    }
  }

  /** `var _ :- Check(c);` gives up unless `c` holds. */
  function Check(condition: bool): Option<()> {
    if condition then Some(()) else None
  }

  /** What a `const char*` points at: the bytes before the first NUL. */
  function CStr(s: bytes): bytes {
    if s == [] || s[0] == 0 then [] else [s[0]] + CStr(s[1..])
  }

  /** The bytes of a string literal of the source. */
  function Ascii(s: string): bytes {
    CStr(seq(|s|, i requires 0 <= i < |s| => s[i] as int % 256))
  }

  predicate NulFree(s: bytes) {
    forall i :: 0 <= i < |s| ==> s[i] != 0
  }

  lemma {:induction false} CStrOfNulFree(s: bytes)
    ensures NulFree(CStr(s)) && CStr(s) <= s
    ensures CStr(s) == s <==> NulFree(s)
  {
    if s != [] && s[0] != 0 {
      CStrOfNulFree(s[1..]);
      assert s == [s[0]] + s[1..];
      if NulFree(s) {
        assert NulFree(s[1..]);
      }
    }
  }

  lemma {:induction false} CStrAt(s: bytes, k: nat)
    requires k < |s| && forall j :: 0 <= j <= k ==> s[j] != 0
    ensures k < |CStr(s)| && CStr(s)[k] == s[k]
  {
    if k > 0 {
      CStrAt(s[1..], k - 1);
    }
  }

  /** A literal is its own C string. */
  lemma AsciiIsCStr(s: string)
    ensures CStr(Ascii(s)) == Ascii(s)
  {
    CStrOfNulFree(seq(|s|, i requires 0 <= i < |s| => s[i] as int % 256));
    CStrOfNulFree(Ascii(s));
  }

  lemma AsciiAt(s: string, k: nat)
    requires k < |s| && forall j :: 0 <= j <= k ==> 0 < s[j] as int < 256
    ensures k < |Ascii(s)| && Ascii(s)[k] == s[k] as int
  {
    CStrAt(seq(|s|, i requires 0 <= i < |s| => s[i] as int % 256), k);
  }

  /** Literals that differ at some character are different names. */
  lemma Differ(a: string, b: string, k: nat)
    requires k < |a| && k < |b| && a[k] != b[k]
    requires forall j :: 0 <= j <= k ==> 0 < a[j] as int < 256 && 0 < b[j] as int < 256
    ensures Ascii(a) != Ascii(b)
  {
    AsciiAt(a, k);
    AsciiAt(b, k);
  }

  lemma Assoc<T>(a: seq<T>, b: seq<T>, c: seq<T>)
    ensures (a + b) + c == a + (b + c)
  {
  }

  /** Pieces appended one by one. */
  lemma Regroup<T>(a: seq<T>, b: seq<T>, c: seq<T>, d: seq<T>, e: seq<T>)
    ensures a + b + c + d + e == a + (b + c + d + e)
  {
    Assoc(a, b, c);
    Assoc(a, b + c, d);
    Assoc(a, b + c + d, e);
  }

  function Min(a: nat, b: nat): nat {
    if a <= b then a else b
  }

  function Max(a: nat, b: nat): nat {
    if a >= b then a else b
  }
}
