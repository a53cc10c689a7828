/** Scheduler ids and the buckets they name. */
module StoreIds {
  import opened Wrappers

  const GLOBAL_BUCKET_ID := "__global__"
  const IP_ID_PREFIX := "__ip__|"
  const IP_KEY := "__ip__"

  function EncodeID(clientKey: string, tier: string): string {
    clientKey + "|" + tier
  }

  /** The text before and after the first bar, if there is one. */
  function Cut(s: string): Option<(string, string)> {
    if s == "" then None
    else if s[0] == '|' then Some(("", s[1..]))
    else
      match Cut(s[1..])
      case None => None
      case Some(p) => Some(([s[0]] + p.0, p.1))
  }

  function DecodeID(id: string): Option<(string, string)> {
    Cut(id)
  }

  datatype Owner = Global | Ip(ip: string) | Tier(key: string, tier: string)

  /** The id a bucket is scheduled under. */
  function IdOf(o: Owner): string {
    match o
    case Global => GLOBAL_BUCKET_ID
    case Ip(ip) => IP_ID_PREFIX + ip
    case Tier(key, tier) => EncodeID(key, tier)
  }

  /** The bucket OnDue looks for when an id comes due. */
  function OwnerOf(id: string): Option<Owner> {
    if id == GLOBAL_BUCKET_ID then Some(Global)
    else if IP_ID_PREFIX <= id then Some(Ip(id[|IP_ID_PREFIX|..]))
    else
      match DecodeID(id)
      case None => None
      case Some(p) => Some(Tier(p.0, p.1))
  }

  /** Keys whose ids cannot be mistaken for another bucket's. */
  predicate Unambiguous(key: string) {
    '|' !in key && key != IP_KEY
  }

  lemma {:induction false} CutJoins(s: string)
    ensures Cut(s).Some? ==> s == Cut(s).value.0 + "|" + Cut(s).value.1 && '|' !in Cut(s).value.0
    ensures Cut(s).None? <==> '|' !in s
  {
    if s != "" && s[0] != '|' {
      CutJoins(s[1..]);
      assert s == [s[0]] + s[1..];
    }
  }

  lemma {:induction false} CutEncoded(key: string, tier: string)
    ensures Cut(EncodeID(key, tier)).Some?
    ensures Cut(EncodeID(key, tier)) == Some((key, tier)) <==> '|' !in key
  {
    var id := EncodeID(key, tier);
    CutJoins(id);
    assert id[|key|] == '|';
    if '|' !in key {
      if key == "" {
        assert id[1..] == tier;
      } else {
        assert id[0] == key[0] && id[1..] == EncodeID(key[1..], tier);
        CutEncoded(key[1..], tier);
        assert key == [key[0]] + key[1..];
      }
    }
  }

  /** Every id that names a bucket is that bucket's own id. */
  lemma IdOfOwner(id: string)
    requires OwnerOf(id).Some?
    ensures IdOf(OwnerOf(id).value) == id
  {
    if id != GLOBAL_BUCKET_ID {
      if IP_ID_PREFIX <= id {
        assert id == IP_ID_PREFIX + id[|IP_ID_PREFIX|..];
      } else {
        CutJoins(id);
      }
    }
  }

  lemma IpPrefixMeansIpKey(key: string, tier: string)
    requires '|' !in key
    ensures IP_ID_PREFIX <= EncodeID(key, tier) <==> key == IP_KEY
  {
    var id := EncodeID(key, tier);
    assert IP_ID_PREFIX == IP_KEY + "|";
    assert id[|key|] == '|';
    if IP_ID_PREFIX <= id {
      assert id[6] == IP_ID_PREFIX[6] == '|';
      assert key == id[..6] == IP_ID_PREFIX[..6] == IP_KEY;
    }
  }

  /** An id is dispatched back to the bucket it was made for exactly when, for a client tier, the key has no
      bar and is not the one key whose ids fall into the IP namespace. */
  lemma DispatchRoundTrip(o: Owner)
    ensures OwnerOf(IdOf(o)) == Some(o) <==> (o.Tier? ==> Unambiguous(o.key))
  {
    match o {
      case Global =>
      case Ip(ip) =>
        assert IdOf(o)[..7] == IP_ID_PREFIX && IdOf(o)[7..] == ip;
        assert IdOf(o)[2] == 'i' && GLOBAL_BUCKET_ID[2] == 'g';
      case Tier(key, tier) =>
        assert IdOf(o)[|key|] == '|';
        assert '|' !in GLOBAL_BUCKET_ID;
        CutEncoded(key, tier);
        if '|' !in key {
          IpPrefixMeansIpKey(key, tier);
        }
    }
  }
}
