/**
 * The link: `uploadFile` prints the fragment key into it, `extractKeyFromHash` of apps/web/src/lib/download.ts reads
 * it back. The browser's part is the fragment of a URL and `URLSearchParams`.
 */
module ShareLink {
  import opened Wrappers
  import opened Bytes
  import opened Base64Url
  import opened Codecs

  /** The position of the first `c`, or the length. */
  function IndexOf(s: string, c: char): (i: nat)
    ensures i <= |s| && c !in s[..i] && (i < |s| ==> s[i] == c)
  {
    if s == "" || s[0] == c then 0
    else
      var i := 1 + IndexOf(s[1..], c);
      assert s[..i] == [s[0]] + s[1..][..i - 1];
      i
  }

  lemma IndexIsUnique(s: string, c: char, i: nat)
    requires i < |s| && s[i] == c && c !in s[..i]
    ensures IndexOf(s, c) == i
  {
  }

  lemma NoIndex(s: string, c: char)
    requires c !in s
    ensures IndexOf(s, c) == |s|
  {
  }

  /** `location.hash`: the URL from its first '#' on, and nothing when nothing follows it. */
  function Fragment(url: string): (hash: string)
  {
    var i := IndexOf(url, '#');
    if i + 1 >= |url| then "" else url[i..]
  }

  /** Form decoding: the identity on text without '%' and '+'; `escapes` is what the browser does with the rest. */
  function FormDecode(escapes: string -> string, s: string): (r: string)
  {
    if '%' !in s && '+' !in s then s else escapes(s)
  }

  /** `URLSearchParams.get`: the first pair of that name, empty pairs skipped. */
  function Get(escapes: string -> string, query: string, name: string): (r: Option<string>)
    decreases |query|
  {
    if query == "" then None
    else
      var i := IndexOf(query, '&');
      var pair := query[..i];
      var e := IndexOf(pair, '=');
      if pair != "" && FormDecode(escapes, pair[..e]) == name then
        Some(FormDecode(escapes, if e < |pair| then pair[e + 1..] else ""))
      else if i < |query| then Get(escapes, query[i + 1..], name)
      else None
  }

  /** `extractKeyFromHash`. */
  function ExtractKeyFromHash(escapes: string -> string, hash: string): (r: Option<ByteString>)
    ensures r.Some? ==> |r.value| == 32
  {
    if |hash| <= 1 then None
    else
      var candidate := Get(escapes, if hash[0] == '#' then hash[1..] else hash, "key");
      if candidate.None? || |candidate.value| < 32 then None
      else
        match CryptoCoreDecode(candidate.value)
        case None => None
        case Some(bytes) => if |bytes| != 32 then None else Some(bytes)
  }

  /** The share URL of `uploadFile`; `id` is the percent-encoded short id. */
  function ShareUrl(base: string, id: string, fragmentKey: ByteString): (url: string)
  {
    base + "/s/" + id + "#key=" + UrlEncode(fragmentKey)
  }

  lemma UrlTextIsPlain(s: string)
    requires IsUrlText(s)
    ensures '%' !in s && '+' !in s && '&' !in s && '=' !in s && '#' !in s
  {
  }

  lemma FragmentFollows(front: string, rest: string)
    requires '#' !in front && rest != ""
    ensures Fragment(front + ("#" + rest)) == "#" + rest
  {
    hide IndexOf;
    var url := front + ("#" + rest);
    assert url[..|front|] == front && url[|front|] == '#' && url[|front|..] == "#" + rest;
    IndexIsUnique(url, '#', |front|);
  }

  lemma OnlyPair(escapes: string -> string, name: string, value: string)
    requires name != "" && '=' !in name && '&' !in name && '%' !in name && '+' !in name
    requires '&' !in value && '%' !in value && '+' !in value
    ensures Get(escapes, name + "=" + value, name) == Some(value)
  {
    hide IndexOf;
    var query := name + "=" + value;
    NoIndex(query, '&');
    assert query[..|query|] == query;
    assert query[|name|] == '=' && query[..|name|] == name && query[|name| + 1..] == value;
    IndexIsUnique(query, '=', |name|);
  }

  /** The receiver reads exactly the sender's key out of the link, for every 32-byte key. */
  lemma LinkCarriesTheKey(escapes: string -> string, base: string, id: string, fragmentKey: ByteString)
    requires |fragmentKey| == 32 && '#' !in base && '#' !in id
    ensures ExtractKeyFromHash(escapes, Fragment(ShareUrl(base, id, fragmentKey))) == Some(fragmentKey)
  {
    hide UrlEncode, CryptoCoreDecode, IndexOf, Get, Fragment;
    var text := UrlEncode(fragmentKey);
    EncodedLength(fragmentKey);
    RoundTrip(fragmentKey);
    UrlTextIsPlain(text);
    var front, query := base + "/s/" + id, "key=" + text;
    assert ShareUrl(base, id, fragmentKey) == front + ("#" + query);
    FragmentFollows(front, query);
    assert ("#" + query)[1..] == query;
    assert query == "key" + "=" + text;
    OnlyPair(escapes, "key", text);
  }

  /** Two links with one front are the same link only if they carry the same key. */
  lemma LinksShowTheirKeys(base: string, id: string, a: ByteString, b: ByteString)
    requires |a| == 32 && |b| == 32 && '#' !in base && '#' !in id
    ensures ShareUrl(base, id, a) == ShareUrl(base, id, b) <==> a == b
  {
    hide *;
    LinkCarriesTheKey(s => s, base, id, a);
    LinkCarriesTheKey(s => s, base, id, b);
  }
}
