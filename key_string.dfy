/** The string buffer the admin-space getter builds its keys in: suffixes are
    pushed onto a prefix, the extended key is used, and the buffer is cut back
    to the prefix. */
module KeyString {

  /** The suffixes joined in order. */
  function Concat(parts: seq<string>): string
  {
    if |parts| == 0 then "" else Concat(parts[..|parts| - 1]) + parts[|parts| - 1]
  }

  /** Concat of a single suffix is that suffix. */
  lemma ConcatOne(part: string)
    ensures Concat([part]) == part
  {
    assert [part][..0] == [];
  }

  class KeyBuffer {
    var value: string

    constructor (initial: string)
      ensures value == initial
    {
      value := initial;
    }

    /** `String::push_str`. */
    method PushStr(suffix: string)
      modifies this
      ensures value == old(value) + suffix
    {
      value := value + suffix;
    }

    /** `String::truncate`: keep the first n characters; no effect when the
        buffer is not longer than n. */
    method Truncate(n: nat)
      modifies this
      ensures value == if n < |old(value)| then old(value)[..n] else old(value)
    {
      if n < |value| {
        value := value[..n];
      }
    }

    /** The first half of `with_extended_string`: remember the prefix length,
        then push every suffix in order. */
    method Extend(suffixes: seq<string>) returns (prefixLen: nat)
      modifies this
      ensures prefixLen == |old(value)|
      ensures value == old(value) + Concat(suffixes)
    {
      prefixLen := |value|;
      for i := 0 to |suffixes|
        invariant value == old(value) + Concat(suffixes[..i])
      {
        assert suffixes[..i + 1][..i] == suffixes[..i];
        PushStr(suffixes[i]);
      }
      assert suffixes[..|suffixes|] == suffixes;
    }

    /** `with_extended_string`: the closure sees the prefix followed by every
        suffix, and on return the buffer holds the prefix again. */
    method WithExtendedString<R>(suffixes: seq<string>, closure: string -> R) returns (r: R)
      modifies this
      ensures r == closure(old(value) + Concat(suffixes))
      ensures value == old(value)
    {
      var prefixLen := Extend(suffixes);
      r := closure(value);
      Truncate(prefixLen);
      assert (old(value) + Concat(suffixes))[..prefixLen] == old(value);
    }
  }
}
