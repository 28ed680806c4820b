/** The built-in primitives in the place of the abstract ones: AES as the block function of counter
    mode (crypto/cipher/aes_icm.c), HMAC-SHA1 as the authentication function. */
module Primitives {
  import opened Results
  import opened Octets
  import opened Keystreams
  import opened Ciphers
  import opened SrtpBodies
  import A = Aes
  import AC = AesCode
  import H = HmacCode

  function ToBytes(s: seq<octet>): (r: seq<bv8>)
    ensures |r| == |s| && forall i | 0 <= i < |s| :: r[i] == s[i] as bv8
  {
    seq(|s|, i requires 0 <= i < |s| => s[i] as bv8)
  }

  function ToOctets(s: seq<bv8>): (r: seq<octet>)
    ensures |r| == |s| && forall i | 0 <= i < |s| :: r[i] == s[i] as int
  {
    seq<octet>(|s|, i requires 0 <= i < |s| => s[i] as int)
  }

  /** AES under this key, on octets. */
  function AesBlock(key: seq<octet>): (E: block -> block)
    requires A.KeyLength(|key|)
  {
    (x: block) => ToOctets(A.Encrypted(ToBytes(key), ToBytes(x)))
  }

  const SALT := 14

  /** srtp_aes_icm_context_init: the key is followed by a 14-octet salt; the last two octets of the
      offset stay 0, which leaves the block counter to the packet. */
  function IcmContext(key: seq<octet>): (r: Result<CipherKey>)
    ensures r.Success? <==> |key| == 16 + SALT || |key| == 32 + SALT
    ensures r.Success? ==> r.value.IcmKey? && Low(r.value.offset) == 0
  {
    if |key| == 16 + SALT || |key| == 32 + SALT then
      var n := |key| - SALT;
      var offset: block := Sub(key, n, |key|) + Zeros(2);
      ZeroCounter(offset);
      Success(IcmKey(AesBlock(Sub(key, 0, n)), offset))
    else Failure(BadParam)
  }

  /** The parts of the key: AES under the first one, and the salt with a block counter of 0. */
  lemma KeyAndSalt(key: seq<octet>, salt: seq<octet>)
    requires A.KeyLength(|key|) && |salt| == SALT
    ensures IcmContext(key + salt) == Success(IcmKey(AesBlock(key), salt + Zeros(2)))
  {
    hide AesBlock;
    var s := key + salt;
    assert Sub(s, 0, |key|) == key && Sub(s, |key|, |s|) == salt;
  }

  lemma ZeroCounter(b: block)
    requires b[14] == 0 && b[15] == 0
    ensures Low(b) == 0
  {
    LowOctets(b);
  }

  /** The table implementation computes the block function. */
  method EncryptBlock(key: seq<octet>, x: block) returns (y: block)
    requires A.KeyLength(|key|)
    ensures y == AesBlock(key)(x)
  {
    hide A.Encrypted, A.RoundKey, ToBytes, ToOctets;
    var k := ToBytes(key);
    var round := AC.ExpandKey(k);
    var s := new bv8[16];
    var b := ToBytes(x);
    forall i | 0 <= i < 16 { s[i] := b[i]; }
    assert s[..] == b;
    AC.Encrypt(s, round.value, k);
    y := ToOctets(s[..]);
  }

  /** HMAC-SHA1 under this key, on octets. */
  function HmacMac(key: seq<octet>): (mac: seq<octet> -> digest)
    requires |key| <= H.BLOCK
  {
    (m: seq<octet>) => ToOctets(H.HmacHere(ToBytes(key), ToBytes(m)))
  }

  /** srtp_auth_compute on a started authenticator: a tag is the start of the HMAC value. */
  method Authenticate(a: H.Authenticator, key: seq<octet>, m: seq<octet>, tagLen: nat) returns (t: seq<octet>)
    requires |key| <= H.BLOCK && a.Keyed() && a.key == ToBytes(key) && tagLen <= 20
    modifies a.ctx, a.ctx.buf
    ensures a.Keyed() && a.key == old(a.key)
    ensures t == Sub(HmacMac(key)(m), 0, tagLen)
  {
    hide H.HmacHere, ToBytes, H.XorPad;
    a.Start();
    var r := a.Compute(ToBytes(m), tagLen, []);
    assert [] + ToBytes(m) == ToBytes(m);
    t := ToOctets(r.value);
    PrefixOctets(H.HmacHere(ToBytes(key), ToBytes(m)), tagLen);
  }

  lemma PrefixOctets(s: seq<bv8>, n: nat)
    requires n <= |s|
    ensures ToOctets(s[..n]) == Sub(ToOctets(s), 0, n)
  {
  }
}
