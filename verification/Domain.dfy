/** Upload and download keys: optional prefixes, validation and derivation. The hash is a
    parameter. */
module Domain {
  import opened Documents

  const UPLOAD_PREFIX := "u_"
  const DOWNLOAD_PREFIX := "d_"

  function TrimPrefix(s: string, prefix: string): string {
    if prefix <= s then s[|prefix|..] else s
  }

  function StripUploadPrefix(key: string): string {
    TrimPrefix(key, UPLOAD_PREFIX)
  }

  function StripDownloadPrefix(key: string): string {
    TrimPrefix(key, DOWNLOAD_PREFIX)
  }

  function LowerChar(c: char): char {
    if 'A' <= c <= 'Z' then c + ('a' - 'A') else c
  }

  function ToLower(s: string): (r: string)
    ensures |r| == |s|
  {
    seq(|s|, i requires 0 <= i < |s| => LowerChar(s[i]))
  }

  predicate IsLowerHexDigit(c: char) {
    '0' <= c <= '9' || 'a' <= c <= 'f'
  }

  /** hex.DecodeString on lower-case input: how many bytes it gives, if it accepts the input. */
  function HexDecodedLength(s: string): Option<nat> {
    if s == "" then Some(0)
    else if |s| == 1 || !IsLowerHexDigit(s[0]) || !IsLowerHexDigit(s[1]) then None
    else
      match HexDecodedLength(s[2..])
      case Some(n) => Some(n + 1)
      case None => None
  }

  /** ValidateUploadKey returns no error. */
  predicate ValidUploadKey(uploadKey: string) {
    HexDecodedLength(ToLower(StripUploadPrefix(uploadKey))) == Some(32)
  }

  /** DeriveDownloadKey; None is the length error. */
  function DeriveDownloadKey(hash: string -> string, uploadKey: string): Option<string> {
    var bare := StripUploadPrefix(uploadKey);
    if |bare| != 64 then None else Some(hash(bare))
  }

  predicate IsHexDigit(c: char) {
    '0' <= c <= '9' || 'a' <= c <= 'f' || 'A' <= c <= 'F'
  }

  lemma {:induction false} HexDecodeIff(s: string)
    ensures HexDecodedLength(s).Some? <==> |s| % 2 == 0 && forall c | c in s :: IsLowerHexDigit(c)
    ensures HexDecodedLength(s).Some? ==> HexDecodedLength(s).value * 2 == |s|
  {
    if |s| >= 2 {
      HexDecodeIff(s[2..]);
      assert s == [s[0], s[1]] + s[2..];
    } else if |s| == 1 {
      assert s[0] in s;
    }
  }

  lemma LowerHexIff(s: string)
    ensures (forall c | c in ToLower(s) :: IsLowerHexDigit(c)) <==> forall c | c in s :: IsHexDigit(c)
  {
    var lower := ToLower(s);
    if forall c | c in lower :: IsLowerHexDigit(c) {
      forall c | c in s ensures IsHexDigit(c) {
        var i :| 0 <= i < |s| && s[i] == c;
        assert lower[i] in lower;
      }
    }
    if forall c | c in s :: IsHexDigit(c) {
      forall c | c in lower ensures IsLowerHexDigit(c) {
        var i :| 0 <= i < |lower| && lower[i] == c;
        assert s[i] in s;
      }
    }
  }

  /** A key is valid exactly when, without its prefix, it is 64 hex digits of either case. Deriving a
      download key only needs 64 characters, so it never fails for a valid key. */
  lemma ValidIff(uploadKey: string)
    ensures ValidUploadKey(uploadKey) <==>
            |StripUploadPrefix(uploadKey)| == 64 && forall c | c in StripUploadPrefix(uploadKey) :: IsHexDigit(c)
    ensures forall hash: string -> string ::
      && (DeriveDownloadKey(hash, uploadKey).Some? <==> |StripUploadPrefix(uploadKey)| == 64)
      && (ValidUploadKey(uploadKey) ==> DeriveDownloadKey(hash, uploadKey).Some?)
  {
    HexDecodeIff(ToLower(StripUploadPrefix(uploadKey)));
    LowerHexIff(StripUploadPrefix(uploadKey));
  }

  /** The prefixes are "u_" and "d_", and one of them is taken off where it is there. */
  lemma StrippedKeys(key: string)
    ensures StripUploadPrefix("u_" + key) == key && StripDownloadPrefix("d_" + key) == key
    ensures !("u_" <= key) ==> StripUploadPrefix(key) == key
    ensures !("d_" <= key) ==> StripDownloadPrefix(key) == key
  {
    assert ("u_" + key)[2..] == key && ("d_" + key)[2..] == key;
  }

  /** A valid bare key and the same key with the prefix act alike, and a second prefix is refused. */
  lemma PrefixIrrelevant(hash: string -> string, bare: string)
    ensures !("u_" <= bare) ==>
      && (ValidUploadKey("u_" + bare) <==> ValidUploadKey(bare))
      && DeriveDownloadKey(hash, "u_" + bare) == DeriveDownloadKey(hash, bare)
    ensures "u_" <= bare ==> !ValidUploadKey("u_" + bare)
  {
    StrippedKeys(bare);
    ValidIff("u_" + bare);
    assert "u_" <= bare ==> bare[0] == 'u' && bare[0] in bare;
  }

  ghost predicate Injective(hash: string -> string) {
    forall a, b :: hash(a) == hash(b) ==> a == b
  }

  /** The download key of a valid upload key is the hash of the key without its prefix, and of
      nothing else: two valid keys derive the same download key exactly when these hashes agree,
      which a hash without collisions does only for one and the same bare key. */
  lemma DerivedKeys(hash: string -> string, x: string, y: string)
    requires ValidUploadKey(x) && ValidUploadKey(y)
    ensures DeriveDownloadKey(hash, x) == Some(hash(StripUploadPrefix(x)))
    ensures Injective(hash) ==>
      (DeriveDownloadKey(hash, x) == DeriveDownloadKey(hash, y) <==> StripUploadPrefix(x) == StripUploadPrefix(y))
  {
    ValidIff(x);
    ValidIff(y);
  }

  lemma {:induction false} ToLowerTwice(s: string)
    ensures ToLower(ToLower(s)) == ToLower(s)
  {
  }

  /** Validation ignores case and derivation does not: with a hash without collisions, a valid key
      and its lower-case form, which is valid too, share a download key exactly when they are equal. */
  lemma CaseMatters(hash: string -> string, bare: string)
    requires Injective(hash) && ValidUploadKey(bare) && !("u_" <= bare)
    ensures ValidUploadKey(ToLower(bare))
    ensures DeriveDownloadKey(hash, bare) == DeriveDownloadKey(hash, ToLower(bare)) <==> bare == ToLower(bare)
  {
    StrippedKeys(bare);
    ValidIff(bare);
    var lower := ToLower(bare);
    assert bare[0] in bare && !("u_" <= lower);
    StrippedKeys(lower);
    ToLowerTwice(bare);
    DerivedKeys(hash, bare, lower);
  }
}
