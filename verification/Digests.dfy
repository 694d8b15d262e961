/**
 SHA-256 as an unknown function from texts to digests. Of the 64 hexadecimal characters of a
 digest the results only use their number and that the first one is hexadecimal. No function
 of that shape is injective, so results that need distinct digests ask for it only on the
 finitely many texts that occur in the statement.
 */
module Digests {
  predicate IsHex(c: char) {
    '0' <= c <= '9' || 'a' <= c <= 'f'
  }

  predicate IsDigest(s: string) {
    |s| == 64 && IsHex(s[0])
  }

  type Digest = s: string | IsDigest(s)
    witness seq(64, i => '0')

  type Hash = string -> Digest

  predicate Collide(h: Hash, x: string, y: string) {
    x != y && h(x) == h(y)
  }

  /** h has no collision among the given texts. */
  ghost predicate NoCollision(h: Hash, texts: set<string>) {
    forall x, y {:trigger Collide(h, x, y)} :: x in texts && y in texts ==> !Collide(h, x, y)
  }

  lemma Separate(h: Hash, texts: set<string>, x: string, y: string)
    requires NoCollision(h, texts) && x in texts && y in texts && h(x) == h(y)
    ensures x == y
  {
    assert !Collide(h, x, y);
  }

  lemma NoCollisionOnFewer(h: Hash, texts: set<string>, fewer: set<string>)
    requires NoCollision(h, texts) && fewer <= texts
    ensures NoCollision(h, fewer)
  {
  }
}
