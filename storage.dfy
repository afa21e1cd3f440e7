/**
 * Upload destinations for a participant's photo cuts: four signed URLs,
 * one per cut, keyed by the cut number written in decimal.
 */
module Storage {

  /** The storage account and container the URLs point into. */
  datatype BlobConfig = BlobConfig(accountName: string, containerName: string)

  /** Number of cuts each participant uploads. */
  const CutCount: nat := 4

  /** The container's address: an https URL on the account's blob host, with the container as path. */
  function BaseUrl(cfg: BlobConfig): (r: string)
    ensures |r| == 8 + |cfg.accountName| + 23 + |cfg.containerName|
    ensures r[..8] == "https://"
    ensures r[8..8 + |cfg.accountName|] == cfg.accountName
    ensures r[8 + |cfg.accountName|..8 + |cfg.accountName| + 23] == ".blob.core.windows.net/"
    ensures r[|r| - |cfg.containerName|..] == cfg.containerName
  {
    "https://" + cfg.accountName + ".blob.core.windows.net/" + cfg.containerName
  }

  /** The decimal digit character for `d`. */
  function Digit(d: nat): (c: char)
    requires d < 10
    ensures c as int == '0' as int + d
  {
    "0123456789"[d]
  }

  /** The decimal numeral of `n`, as Python's `str` writes a non-negative int. */
  function DecimalString(n: nat): (s: string)
    ensures 1 <= |s|
    ensures |s| == 1 <==> n < 10
    ensures forall i :: 0 <= i < |s| ==> '0' <= s[i] <= '9'
    decreases n
  {
    if n < 10 then [Digit(n)] else DecimalString(n / 10) + [Digit(n % 10)]
  }

  /** Distinct numbers have distinct numerals. */
  lemma {:induction false} DecimalStringInjective(n: nat, k: nat)
    requires DecimalString(n) == DecimalString(k)
    ensures n == k
    decreases n
  {
    var s := DecimalString(n);
    if n < 10 {
      assert s[0] == Digit(n) && DecimalString(k)[0] == Digit(k);
    } else {
      assert k >= 10;
      assert s == DecimalString(n / 10) + [Digit(n % 10)];
      assert s == DecimalString(k / 10) + [Digit(k % 10)];
      assert s[|s| - 1] == Digit(n % 10) == Digit(k % 10);
      assert DecimalString(n / 10) == s[..|s| - 1] == DecimalString(k / 10);
      DecimalStringInjective(n / 10, k / 10);
    }
  }

  /** The keys of the result: the numerals of 0 .. CutCount - 1. */
  function CutKeys(): set<string>
  {
    set n | 0 <= n < CutCount :: DecimalString(n)
  }

  /** The keys are exactly "0", "1", "2" and "3". */
  lemma CutKeysAreDigits()
    ensures CutKeys() == {"0", "1", "2", "3"}
  {
    assert DecimalString(0) == "0" && DecimalString(1) == "1";
    assert DecimalString(2) == "2" && DecimalString(3) == "3";
  }

  /** Where cut `n` of participant `uid` in session `sid` is stored. */
  function BlobPath(sid: string, uid: string, n: nat): (r: string)
    ensures |r| == 9 + |sid| + 6 + |uid| + 1 + |DecimalString(n)| + 5
    ensures r[..9] == "sessions/" && r[9..9 + |sid|] == sid
    ensures r[9 + |sid|..15 + |sid|] == "/cuts/" && r[15 + |sid|..15 + |sid| + |uid|] == uid
    ensures r[15 + |sid| + |uid|..|r| - 5] == "_" + DecimalString(n)
    ensures r[|r| - 5..] == ".webp"
  {
    "sessions/" + sid + "/cuts/" + uid + "_" + DecimalString(n) + ".webp"
  }

  /** A signed URL for `path`; `sign` stands for the storage service's token issuer. */
  function SignedUrl(cfg: BlobConfig, path: string, sign: string -> string): (r: string)
    ensures |r| == |BaseUrl(cfg)| + 1 + |path| + 1 + |sign(path)|
    ensures r[..|BaseUrl(cfg)| + 1] == BaseUrl(cfg) + "/"
    ensures r[|BaseUrl(cfg)| + 1..|BaseUrl(cfg)| + 1 + |path|] == path
    ensures r[|r| - |sign(path)| - 1..] == "?" + sign(path)
  {
    BaseUrl(cfg) + "/" + path + "?" + sign(path)
  }

  /** `generate_upload_urls`: one signed URL per cut, keyed by the cut number. */
  method GenerateUploadUrls(cfg: BlobConfig, sid: string, uid: string, sign: string -> string)
    returns (urls: map<string, string>)
    ensures urls.Keys == {"0", "1", "2", "3"}
    ensures forall n :: 0 <= n < CutCount ==>
      DecimalString(n) in urls && urls[DecimalString(n)] == SignedUrl(cfg, BlobPath(sid, uid, n), sign)
  {
    var baseUrl := BaseUrl(cfg);
    urls := map[];
    for cutNum := 0 to CutCount
      invariant urls.Keys == set k | 0 <= k < cutNum :: DecimalString(k)
      invariant forall k :: 0 <= k < cutNum ==>
        DecimalString(k) in urls && urls[DecimalString(k)] == SignedUrl(cfg, BlobPath(sid, uid, k), sign)
    {
      var blobPath := BlobPath(sid, uid, cutNum);
      var sasToken := sign(blobPath);
      forall k | 0 <= k < cutNum
        ensures DecimalString(k) != DecimalString(cutNum)
      {
        if DecimalString(k) == DecimalString(cutNum) {
          DecimalStringInjective(k, cutNum);
        }
      }
      assert (set k | 0 <= k < cutNum + 1 :: DecimalString(k))
          == (set k | 0 <= k < cutNum :: DecimalString(k)) + {DecimalString(cutNum)};
      urls := urls[DecimalString(cutNum) := baseUrl + "/" + blobPath + "?" + sasToken];
    }
    CutKeysAreDigits();
  }

  /** `part` occurs in `s` starting at offset `k`. */
  predicate OccursAt(s: string, part: string, k: nat)
  {
    k + |part| <= |s| && s[k..k + |part|] == part
  }

  /** `part` occurs in `s` somewhere. */
  ghost predicate Contains(s: string, part: string)
  {
    exists k: nat :: OccursAt(s, part, k)
  }

  lemma ContainsSelf(s: string)
    ensures Contains(s, s)
  {
    assert OccursAt(s, s, 0);
  }

  lemma ContainsExtendRight(a: string, b: string, part: string)
    requires Contains(a, part)
    ensures Contains(a + b, part)
  {
    var k: nat :| OccursAt(a, part, k);
    assert (a + b)[k..k + |part|] == a[k..k + |part|];
    assert OccursAt(a + b, part, k);
  }

  lemma ContainsExtendLeft(a: string, b: string, part: string)
    requires Contains(b, part)
    ensures Contains(a + b, part)
  {
    var k: nat :| OccursAt(b, part, k);
    assert (a + b)[|a| + k..|a| + k + |part|] == b[k..k + |part|];
    assert OccursAt(a + b, part, |a| + k);
  }

  /** What a signed URL contains, it contains through every part of its path. */
  lemma UrlContainsPathPart(cfg: BlobConfig, path: string, sign: string -> string, part: string)
    requires Contains(path, part)
    ensures Contains(SignedUrl(cfg, path, sign), part)
  {
    ContainsExtendLeft(BaseUrl(cfg) + "/", path, part);
    ContainsExtendRight(BaseUrl(cfg) + "/" + path, "?", part);
    ContainsExtendRight(BaseUrl(cfg) + "/" + path + "?", sign(path), part);
  }

  /** Every upload URL names its session and its participant, and carries its token. */
  lemma UrlContainsIds(cfg: BlobConfig, sid: string, uid: string, sign: string -> string, n: nat)
    ensures Contains(SignedUrl(cfg, BlobPath(sid, uid, n), sign), sid)
    ensures Contains(SignedUrl(cfg, BlobPath(sid, uid, n), sign), uid)
    ensures Contains(SignedUrl(cfg, BlobPath(sid, uid, n), sign), sign(BlobPath(sid, uid, n)))
  {
    var path := BlobPath(sid, uid, n);
    var d := DecimalString(n);
    // the session id, inside the path
    ContainsSelf(sid);
    ContainsExtendLeft("sessions/", sid, sid);
    ContainsExtendRight("sessions/" + sid, "/cuts/", sid);
    ContainsExtendRight("sessions/" + sid + "/cuts/", uid, sid);
    ContainsExtendRight("sessions/" + sid + "/cuts/" + uid, "_", sid);
    ContainsExtendRight("sessions/" + sid + "/cuts/" + uid + "_", d, sid);
    ContainsExtendRight("sessions/" + sid + "/cuts/" + uid + "_" + d, ".webp", sid);
    UrlContainsPathPart(cfg, path, sign, sid);
    // the participant id, inside the path
    ContainsSelf(uid);
    ContainsExtendLeft("sessions/" + sid + "/cuts/", uid, uid);
    ContainsExtendRight("sessions/" + sid + "/cuts/" + uid, "_", uid);
    ContainsExtendRight("sessions/" + sid + "/cuts/" + uid + "_", d, uid);
    ContainsExtendRight("sessions/" + sid + "/cuts/" + uid + "_" + d, ".webp", uid);
    UrlContainsPathPart(cfg, path, sign, uid);
    // the token, at the end
    ContainsSelf(sign(path));
    ContainsExtendLeft(BaseUrl(cfg) + "/" + path + "?", sign(path), sign(path));
  }

  /** A signed URL starts with the container's base URL and a slash, and ends with `?` and the path's token. */
  lemma SignedUrlFrame(cfg: BlobConfig, path: string, sign: string -> string)
    ensures var url := SignedUrl(cfg, path, sign);
      var head := "https://" + cfg.accountName + ".blob.core.windows.net/" + cfg.containerName + "/";
      var tail := "?" + sign(path);
      |head| + |path| + |tail| == |url| &&
      url[..|head|] == head && url[|head|..|head| + |path|] == path && url[|url| - |tail|..] == tail
  {
  }

  /** The path of cut `n` ends in `_` followed by the key `n` is stored under. */
  lemma PathSuffixMatchesKey(sid: string, uid: string, n: nat)
    ensures var path := BlobPath(sid, uid, n);
      var suffix := "_" + DecimalString(n) + ".webp";
      |suffix| <= |path| && path[|path| - |suffix|..] == suffix
  {
  }

  /** Different cuts of one participant go to different blobs. */
  lemma BlobPathsDistinct(sid: string, uid: string, n: nat, k: nat)
    requires n != k
    ensures BlobPath(sid, uid, n) != BlobPath(sid, uid, k)
  {
    var prefix := "sessions/" + sid + "/cuts/" + uid + "_";
    var p, q := BlobPath(sid, uid, n), BlobPath(sid, uid, k);
    if p == q {
      assert p == prefix + DecimalString(n) + ".webp";
      assert q == prefix + DecimalString(k) + ".webp";
      assert |DecimalString(n)| == |DecimalString(k)|;
      assert DecimalString(n) == p[|prefix|..|p| - 5] == DecimalString(k);
      DecimalStringInjective(n, k);
    }
  }
}
