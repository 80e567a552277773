/** The padding and password-splitting helpers of `PasswordCrypto` (crypto.py). Padding is PKCS #7
    block padding (section 6.3 of RFC 5652, section 10.3 of RFC 2315) for the AES block size.
    `_pkcs7_pad` works on the code points of a `str` and `_pkcs7_unpad` on bytes; both are
    sequences of non-negative integers here. */
module PasswordCrypto {
  import opened Wrappers
  import Text

  /** `AES.block_size`. */
  const BlockSize: nat := 16

  /** `_pkcs7_pad`: append `k = 16 - len % 16` copies of the value `k`. */
  function Pad(p: seq<nat>): (r: seq<nat>)
    ensures var k := BlockSize - |p| % BlockSize;
      1 <= k <= BlockSize && |r| == |p| + k && forall i :: |p| <= i < |r| ==> r[i] == k
    ensures r[..|p|] == p
    ensures |r| % BlockSize == 0 && |r| > |p|
  {
    var k := BlockSize - |p| % BlockSize;
    p + seq(k, _ => k)
  }

  /** Python's slice `s[:j]` for any integer `j`; a negative `j` counts from the end, clamped at 0. */
  function SliceTo<T>(s: seq<T>, j: int): (r: seq<T>)
    ensures |r| <= |s| && r == s[..|r|]
    ensures 0 <= j <= |s| ==> r == s[..j]
    ensures j > |s| ==> r == s
    ensures -|s| <= j < 0 ==> |r| == |s| + j
    ensures j == 0 || j < -|s| ==> r == []
  {
    if j >= 0 then s[..if j <= |s| then j else |s|]
    else s[..if -j <= |s| then |s| + j else 0]
  }

  /** `_pkcs7_unpad`: `c[:-int(c[-1])]`. `c[-1]` raises IndexError on an empty input. */
  function Unpad(c: seq<nat>): (r: Result<seq<nat>, Error>)
    ensures r.Err? <==> |c| == 0
    ensures r.Err? ==> r.error == IndexOutOfRange
    ensures r.Ok? ==> |r.value| < |c| && r.value == c[..|r.value|]
  {
    if |c| == 0 then Err(IndexOutOfRange) else Ok(SliceTo(c, -(c[|c| - 1] as int)))
  }

  /** What `Unpad` does, case by case: it drops as many elements as the last one says, without
      looking at them; a last value of 0 or of at least the length leaves nothing. */
  lemma UnpadCases(c: seq<nat>)
    ensures |c| == 0 <==> Unpad(c).Err?
    ensures |c| > 0 && 0 < c[|c| - 1] < |c| ==> Unpad(c) == Ok(c[..|c| - c[|c| - 1]])
    ensures |c| > 0 && c[|c| - 1] == 0 ==> Unpad(c) == Ok([])
    ensures |c| > 0 && c[|c| - 1] >= |c| ==> Unpad(c) == Ok([])
  {
  }

  /** Unpadding a padded sequence gives back the original. */
  lemma UnpadPad(p: seq<nat>)
    ensures Unpad(Pad(p)) == Ok(p)
  {
    var r := Pad(p);
    assert r[|r| - 1] == BlockSize - |p| % BlockSize;
  }

  /** A well-formed PKCS #7 block sequence: whole blocks, last value between 1 and the block size,
      and that many trailing elements all equal to it. */
  predicate WellPadded(c: seq<nat>)
  {
    && |c| > 0 && |c| % BlockSize == 0
    && var k := c[|c| - 1];
    && 1 <= k <= BlockSize
    && forall i :: |c| - k <= i < |c| ==> c[i] == k
  }

  /** Padding always produces a well-formed sequence. */
  lemma PadWellPadded(p: seq<nat>)
    ensures WellPadded(Pad(p))
  {
  }

  /** On a well-formed sequence, unpadding and padding again is the identity, so `Pad` is onto the
      well-formed sequences and `Unpad` is its inverse there. */
  lemma PadUnpad(c: seq<nat>)
    requires WellPadded(c)
    ensures Unpad(c).Ok? && Pad(Unpad(c).value) == c
  {
    var k := c[|c| - 1];
    var p := c[..|c| - k];
    assert Unpad(c) == Ok(p);
    assert |p| % BlockSize == (BlockSize - k) % BlockSize by {
      assert |c| == BlockSize * (|c| / BlockSize);
      assert |p| == BlockSize * (|c| / BlockSize - 1) + (BlockSize - k);
    }
    assert Pad(p) == c;
  }

  /** The four `$`-separated fields of Django's stored password `algorithm$iterations$salt$hash`. */
  datatype PasswordFields = PasswordFields(algorithm: string, iterations: string, salt: string, hash: string)

  /** `split_password`: split on every `$` and keep fields 0 to 3; fewer than four fields raise IndexError. */
  function SplitPassword(password: string): (r: Result<PasswordFields, Error>)
    ensures r.Ok? <==> Text.Count(password, '$') >= 3
    ensures r.Err? ==> r.error == IndexOutOfRange
    ensures r.Ok? ==> '$' !in r.value.algorithm && '$' !in r.value.iterations
                      && '$' !in r.value.salt && '$' !in r.value.hash
  {
    var f := Text.Split(password, '$');
    if |f| < 4 then Err(IndexOutOfRange) else Ok(PasswordFields(f[0], f[1], f[2], f[3]))
  }

  /** Splitting succeeds exactly when there are at least three `$`, and yields the first four fields;
      any further fields are ignored. */
  lemma SplitPasswordFields(password: string)
    ensures SplitPassword(password).Ok? <==> Text.Count(password, '$') >= 3
    ensures SplitPassword(password).Ok? ==>
      var f := Text.Split(password, '$');
      SplitPassword(password).value == PasswordFields(f[0], f[1], f[2], f[3])
  {
  }

  /** A password joined from `$`-free fields splits back into those fields, whatever follows them. */
  lemma SplitPasswordJoin(fields: seq<string>)
    requires |fields| >= 4
    requires forall i :: 0 <= i < |fields| ==> '$' !in fields[i]
    ensures SplitPassword(Text.Join(fields, '$')) == Ok(PasswordFields(fields[0], fields[1], fields[2], fields[3]))
  {
    Text.SplitJoin(fields, '$');
  }
}
