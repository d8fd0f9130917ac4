/** Helpers for the C-string conventions the launcher relies on: a `char *`
    argument is the text before its terminating NUL, `strncmp` compares a
    bounded prefix, `isalnum` tests the "C" locale classes, and `"%s"`
    copies a string up to its first NUL. */
module CString {

  /** The terminating NUL of a C string. */
  const Nul: char := '\0'

  /** Text that can stand for a C string: no NUL inside. */
  predicate NoNul(s: seq<char>)
  {
    forall k :: 0 <= k < |s| ==> s[k] != Nul
  }

  /** What `"%s"` and `strlen` see of a character array: everything before
      the first NUL, or the whole array when there is none. */
  function CStr(s: seq<char>): (r: seq<char>)
    ensures NoNul(r)
    ensures r <= s
    ensures |r| < |s| ==> s[|r|] == Nul
  {
    if s == [] || s[0] == Nul then [] else [s[0]] + CStr(s[1..])
  }

  /** A NUL-free text is its own C string. */
  lemma {:induction false} CStrOfNoNul(s: seq<char>)
    requires NoNul(s)
    ensures CStr(s) == s
  {
    if s != [] {
      CStrOfNoNul(s[1..]);
    }
  }

  /** `strncmp(s, lit, n) == 0` for a NUL-free `s` and a literal `lit` that has
      at least `n` characters: the first `n` characters agree. */
  predicate PrefixMatches(s: seq<char>, lit: seq<char>, n: nat)
    requires n <= |lit|
  {
    n <= |s| && s[..n] == lit[..n]
  }

  /** `isalnum` in the "C" locale. */
  predicate IsAlnum(c: char)
  {
    ('0' <= c <= '9') || ('A' <= c <= 'Z') || ('a' <= c <= 'z')
  }

  /** The texts of `ls`, one after the other. */
  function Concat(ls: seq<seq<char>>): seq<char>
  {
    if ls == [] then [] else ls[0] + Concat(ls[1..])
  }

  lemma {:induction false} ConcatAppend(a: seq<seq<char>>, b: seq<seq<char>>)
    ensures Concat(a + b) == Concat(a) + Concat(b)
  {
    if a == [] {
      assert a + b == b;
    } else {
      assert (a + b)[1..] == a[1..] + b;
      ConcatAppend(a[1..], b);
    }
  }
}
