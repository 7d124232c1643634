/** Identifier and path checks that the relay server and its clients share. */
module RelayLib {
  import opened Prelude
  import opened Text

  predicate AllHex(s: string) {
    forall c <- s :: IsHexDigit(c)
  }

  /** n hexadecimal digits, of either case. */
  predicate HexText(s: string, n: nat) {
    |s| == n && forall i :: 0 <= i < n ==> '0' <= s[i] <= '9' || 'a' <= s[i] <= 'f' || 'A' <= s[i] <= 'F'
  }

  lemma HexTextIff(s: string, n: nat)
    ensures |s| == n && AllHex(s) <==> HexText(s, n)
  {
    if |s| == n && AllHex(s) {
      forall i | 0 <= i < n ensures IsHexDigit(s[i]) {
        assert s[i] in s;
      }
    }
  }

  predicate ValidTenantId(value: string) {
    |value| == 32 && AllHex(value)
  }

  predicate ValidSecret(value: string) {
    |value| == 64 && AllHex(value)
  }

  predicate ImageExtension(extension: string) {
    extension == "png" || extension == "jpg" || extension == "webp" || extension == "gif"
  }

  /** A content-addressed image name: 64 hexadecimal digits, a dot, an image extension. */
  predicate ImageName(filename: string) {
    match SplitOnce(filename, '.')
    case None => false
    case Some((digest, extension)) => |digest| == 64 && AllHex(digest) && ImageExtension(extension)
  }

  predicate ValidImagePath(path: string) {
    "/image/" <= path && ImageName(Split(path[|"/image/"|..], '?')[0])
  }

  function ImagePath(filename: string, expires: string, sig: string): string {
    "/image/" + filename + "?expires=" + expires + "&sig=" + sig
  }

  /** What the relay demands of an image request before it looks at its tables. */
  predicate ImageRequestOk(tenantId: string, filename: string, expires: Option<string>, sig: Option<string>) {
    && expires.Some? && sig.Some?
    && |expires.value| <= 20 && (forall c <- expires.value :: IsDigit(c))
    && |sig.value| == 64 && AllHex(sig.value)
    && ValidTenantId(tenantId)
    && ValidImagePath(ImagePath(filename, expires.value, sig.value))
  }

  /** SHA-256 of a secret as a free constructor: distinct secrets have distinct digests.
      `Stored` stands for any other text found in a tenant store. */
  datatype Digest = Sha256(secret: string) | Stored(text: string)

  predicate SecretHashMatches(expected: Digest, secret: string) {
    expected == Sha256(secret)
  }
}
