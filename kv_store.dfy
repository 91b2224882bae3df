/** Article storage (lib/vercel-kv.ts): a durable key-value backend reached
    over HTTP when it is configured, and a process-wide in-memory Map used
    instead when it is not, or when a durable write fails. The backend's
    replies are inputs; the digest is an uninterpreted function. */
module KvStore {
  import opened Base

  datatype StoredArticle = StoredArticle(
    id: string, title: string, link: string, source: string, pubDate: string,
    summary: string, sentiment: string, topic: string, processedAt: string)

  datatype KvConfig = KvConfig(url: string, token: string)

  /** `getKVConfig`: both environment variables must be set and non-empty. */
  function GetKVConfig(url: Option<string>, token: Option<string>): (config: Option<KvConfig>)
    ensures config.Some? <==> Truthy(url) && Truthy(token)
    ensures config.Some? ==> config.value == KvConfig(url.value, token.value)
  {
    if !Truthy(url) || !Truthy(token) then None else Some(KvConfig(url.value, token.value))
  }

  /** The expiry the durable write asks for: seven days, in seconds (604800). */
  const TtlSeconds: nat := 7 * 24 * 60 * 60

  /** The string that is digested into an article's id. */
  function IdentityString(title: string, source: string): (s: string)
    ensures |s| == |title| + 1 + |source| && s[|title|] == ':'
    ensures s[..|title|] == title && s[|title| + 1..] == source
  {
    title + ":" + source
  }

  /** `generateArticleId`: the hex MD5 digest of `title:source`. The id is
      unique as its doc comment promises only as far as the digest is
      injective and the source holds no colon: then no other colon-free pair
      gets the same id. */
  function GenerateArticleId(md5: string -> string, title: string, source: string): (id: string)
    ensures (forall x, y :: md5(x) == md5(y) ==> x == y) && ':' !in source ==>
              forall t, s :: ':' !in s && md5(IdentityString(t, s)) == id ==> t == title && s == source
  {
    var joined := IdentityString(title, source);
    assert forall t, s :: ':' !in source && ':' !in s && IdentityString(t, s) == joined ==> t == title && s == source by {
      forall t, s | ':' !in source && ':' !in s && IdentityString(t, s) == joined
        ensures t == title && s == source
      {
        IdentityStringInjective(t, s, title, source);
      }
    }
    md5(joined)
  }

  /** The id depends on title and source only through the joined string, so
      pairs that join alike collide whatever the digest is. */
  lemma IdentityCollision(md5: string -> string)
    ensures ("a:b", "c") != ("a", "b:c")
    ensures GenerateArticleId(md5, "a:b", "c") == GenerateArticleId(md5, "a", "b:c")
  {
    assert IdentityString("a:b", "c") == IdentityString("a", "b:c");
  }

  /** When neither source contains a colon, the joined string determines the
      pair: the source is what follows its last colon. */
  lemma IdentityStringInjective(t1: string, s1: string, t2: string, s2: string)
    requires ':' !in s1 && ':' !in s2
    ensures IdentityString(t1, s1) == IdentityString(t2, s2) <==> t1 == t2 && s1 == s2
  {
    var j1, j2 := IdentityString(t1, s1), IdentityString(t2, s2);
    if j1 == j2 {
      if |s1| != |s2| {
        assert false;
      }
      assert t1 == j1[..|t1|] == j2[..|t2|] == t2;
      assert s1 == j1[|t1| + 1..] == j2[|t2| + 1..] == s2;
    }
  }

  /** A GET reply of the durable backend: a failed request (with its HTTP
      status, when there was a response), the stored value (`null` when the
      key is unknown), or a body without a `result` field, whose `undefined`
      is not `null`. */
  datatype GetReply = GetFailed(status: Option<int>) | GetResult(result: Option<StoredArticle>) | GetNoResultField

  /** A KEYS reply: a failed request or the result field, possibly missing. */
  datatype KeysReply = KeysFailed(reason: string) | KeysResult(result: Option<seq<string>>)

  /** The durable backend's answers, as functions of each request. */
  datatype KvBackend = KvBackend(
    get: string -> GetReply,
    write: (string, StoredArticle, nat) -> Outcome<string>,
    remove: string -> Outcome<string>,
    listKeys: string -> KeysReply)

  /** `response.data.result || []`. */
  function KeysOf(reply: KeysReply): (keys: seq<string>)
    ensures reply.KeysFailed? ==> keys == []
    ensures reply.KeysResult? && reply.result.None? ==> keys == []
    ensures reply.KeysResult? && reply.result.Some? ==> keys == reply.result.value
  {
    match reply
    case KeysFailed(_) => []
    case KeysResult(result) => if result.Some? then result.value else []
  }

  /** One more listed key adds its article exactly when the backend holds a
      non-null value for it. */
  lemma GetAllFromKeysStep(md5: string -> string, keys: seq<string>, i: nat, backend: KvBackend)
    requires i < |keys|
    ensures var reply := backend.get(GenerateArticleId(md5, keys[i], ""));
            GetAllFromKeys(md5, keys[..i + 1], backend) ==
              if reply.GetResult? && reply.result.Some? then GetAllFromKeys(md5, keys[..i], backend) + [reply.result.value]
              else GetAllFromKeys(md5, keys[..i], backend)
  {
    assert keys[..i + 1][..i] == keys[..i];
  }

  /** `s` without the element `x`, order kept. */
  function Without(s: seq<string>, x: string): (r: seq<string>)
    ensures forall k :: k in r <==> k in s && k != x
    ensures NoDuplicates(s) ==> NoDuplicates(r)
    ensures |r| <= |s|
  {
    if |s| == 0 then []
    else
      var rest := Without(s[1..], x);
      assert forall k :: k in s[1..] ==> k in s;
      if s[0] == x then rest
      else
        assert NoDuplicates(s) ==> s[0] !in s[1..];
        [s[0]] + rest
  }

  /** The articles the configured `getAllArticles` loop collects: for each
      key it calls `getArticle(key, "")`, which digests `key + ":"` again, and
      keeps the non-null answers. */
  function GetAllFromKeys(md5: string -> string, keys: seq<string>, backend: KvBackend): (articles: seq<StoredArticle>)
    ensures |articles| <= |keys|
    ensures forall a :: a in articles ==>
              exists k :: k in keys && backend.get(GenerateArticleId(md5, k, "")) == GetResult(Some(a))
  {
    if |keys| == 0 then []
    else
      var rest := GetAllFromKeys(md5, keys[..|keys| - 1], backend);
      var last := keys[|keys| - 1];
      assert forall k :: k in keys[..|keys| - 1] ==> k in keys;
      match backend.get(GenerateArticleId(md5, last, ""))
      case GetResult(Some(a)) => rest + [a]
      case _ => rest
  }

  /** The keys the configured `clearAllArticles` loop sends deletes for: in
      order, up to and including the first delete that fails, after which the
      thrown error ends the loop. */
  function DeletesIssued(keys: seq<string>, del: string -> Outcome<string>): (sent: seq<string>)
    ensures |sent| <= |keys|
  {
    if |keys| == 0 then []
    else if del(keys[0]).Fail? then [keys[0]]
    else [keys[0]] + DeletesIssued(keys[1..], del)
  }

  /** The deletes sent are a prefix of the keys; they are all of them exactly
      when no delete before the last one fails, and when one fails it is the
      last one sent, every earlier one having succeeded. */
  lemma {:induction false} DeletesIssuedPrefix(keys: seq<string>, del: string -> Outcome<string>)
    ensures var sent := DeletesIssued(keys, del);
            sent == keys[..|sent|] &&
            (forall i :: 0 <= i < |sent| - 1 ==> del(sent[i]).Pass?) &&
            ((forall i :: 0 <= i < |keys| ==> del(keys[i]).Pass?) ==> sent == keys) &&
            (|sent| < |keys| ==> |sent| > 0 && del(sent[|sent| - 1]).Fail?)
  {
    if |keys| > 0 && del(keys[0]).Pass? {
      DeletesIssuedPrefix(keys[1..], del);
      var rest := DeletesIssued(keys[1..], del);
      assert DeletesIssued(keys, del) == [keys[0]] + rest;
      if forall i :: 0 <= i < |keys| ==> del(keys[i]).Pass? {
        assert forall i :: 0 <= i < |keys[1..]| ==> del(keys[1..][i]).Pass?;
      }
    }
  }

  /** The existence test of `articleExists` on a given Map: unconfigured, Map
      membership of the article id; configured, a backend reply whose result
      is not `null` (a value, or no `result` field at all), every failed
      request counting as absent. */
  function Found(config: Option<KvConfig>, md5: string -> string, memory: map<string, StoredArticle>,
                 title: string, source: string, backend: KvBackend): bool
  {
    var id := GenerateArticleId(md5, title, source);
    if config.None? then id in memory
    else
      match backend.get(id)
      case GetFailed(_) => false
      case GetResult(result) => result.Some?
      case GetNoResultField => true
  }

  /** Whether `storeArticle` puts the article into the Map: always when
      unconfigured, and when configured only if the durable write (with the
      seven-day expiry) fails. */
  predicate FallsBackToMemory(config: Option<KvConfig>, article: StoredArticle, backend: KvBackend)
  {
    config.None? || backend.write(article.id, article, TtlSeconds).Fail?
  }

  /** The Map and its key order after `storeArticle`: `Map.set` when the
      article goes into the Map, no change otherwise. */
  function MapAfterStore(config: Option<KvConfig>, memory: map<string, StoredArticle>, order: seq<string>,
                         article: StoredArticle, backend: KvBackend): (map<string, StoredArticle>, seq<string>)
  {
    if FallsBackToMemory(config, article, backend) then
      (memory[article.id := article], if article.id in memory then order else order + [article.id])
    else (memory, order)
  }

  /** The store: the durable configuration and digest, fixed for the
      process, and the in-memory Map with its keys in insertion order. */
  class ArticleStore {
    const config: Option<KvConfig>
    const md5: string -> string
    var memory: map<string, StoredArticle>
    var order: seq<string>

    /** The Map's key order lists each key of the Map once. */
    ghost predicate Valid()
      reads this
    {
      NoDuplicates(order) && forall k :: k in memory <==> k in order
    }

    /** `Array.from(inMemoryStore.values())`: the values in insertion order. */
    function Values(): (values: seq<StoredArticle>)
      reads this
      requires Valid()
      ensures |values| == |memory| == |order|
      ensures forall i :: 0 <= i < |order| ==> values[i] == memory[order[i]]
      ensures forall v :: v in values <==> v in memory.Values
    {
      assert |memory.Keys| == |order| by { DistinctCard(order, memory.Keys); }
      var ord, mem := order, memory;
      var values := seq(|ord|, i requires 0 <= i < |ord| => mem[ord[i]]);
      assert forall v :: v in memory.Values ==> v in values by {
        forall v | v in memory.Values ensures v in values {
          var k :| k in memory && memory[k] == v;
          var i :| 0 <= i < |order| && order[i] == k;
          assert values[i] == v;
        }
      }
      values
    }

    constructor (config: Option<KvConfig>, md5: string -> string)
      ensures this.config == config && this.md5 == md5
      ensures memory == map[] && order == [] && Valid()
    {
      this.config := config;
      this.md5 := md5;
      memory := map[];
      order := [];
    }

    /** `articleExists`: unconfigured, whether the article's id is a key of
        the Map; configured, whether the backend's result is not `null`, so
        a reply without a `result` field counts as present, and every failed
        request (404 or other) as absent. The Map is not consulted in
        configured mode. */
    function ArticleExists(title: string, source: string, backend: KvBackend): (found: bool)
      reads this
      ensures config.None? ==> (found <==> GenerateArticleId(md5, title, source) in memory)
      ensures config.Some? ==> (found <==> backend.get(GenerateArticleId(md5, title, source)).GetNoResultField? ||
                                           (backend.get(GenerateArticleId(md5, title, source)).GetResult? &&
                                            backend.get(GenerateArticleId(md5, title, source)).result.Some?))
    {
      Found(config, md5, memory, title, source, backend)
    }

    /** `getArticle`: the Map's entry for the article's id, or the backend's
        value; null when absent or on any failed request, and `undefined`,
        which no caller tells from null, for a reply without a `result`
        field. */
    function GetArticle(title: string, source: string, backend: KvBackend): (article: Option<StoredArticle>)
      reads this
      ensures var id := GenerateArticleId(md5, title, source);
              config.None? ==> (article.Some? <==> id in memory) && (article.Some? ==> article.value == memory[id])
      ensures var id := GenerateArticleId(md5, title, source);
              config.Some? ==> (article.Some? <==> backend.get(id).GetResult? && backend.get(id).result.Some?) &&
                               (article.Some? ==> backend.get(id) == GetResult(article))
    {
      var id := GenerateArticleId(md5, title, source);
      if config.None? then (if id in memory then Some(memory[id]) else None)
      else
        match backend.get(id)
        case GetFailed(_) => None
        case GetResult(result) => result
        case GetNoResultField => None
    }

    /** Whether `storeArticle` puts the article into this store's Map. */
    predicate StoresInMemory(article: StoredArticle, backend: KvBackend)
    {
      FallsBackToMemory(config, article, backend)
    }

    /** `inMemoryStore.set(id, article)`: a new key goes last, an existing key
        keeps its place and gets the new value. */
    method Put(id: string, article: StoredArticle)
      requires Valid()
      modifies this
      ensures Valid()
      ensures memory == old(memory)[id := article]
      ensures order == if id in old(memory) then old(order) else old(order) + [id]
    {
      if id !in memory {
        order := order + [id];
      }
      memory := memory[id := article];
    }

    /** `storeArticle`: keyed by `article.id`; it never throws. */
    method StoreArticle(article: StoredArticle, backend: KvBackend)
      requires Valid()
      modifies this
      ensures Valid()
      ensures StoresInMemory(article, backend) ==> memory == old(memory)[article.id := article]
      ensures !StoresInMemory(article, backend) ==> memory == old(memory) && order == old(order)
      ensures StoresInMemory(article, backend) ==>
                order == if article.id in old(memory) then old(order) else old(order) + [article.id]
      ensures (memory, order) == MapAfterStore(config, old(memory), old(order), article, backend)
    {
      if config.None? {
        Put(article.id, article);
        return;
      }
      var written := backend.write(article.id, article, TtlSeconds);
      if written.Fail? {
        Put(article.id, article);
      }
    }

    /** `deleteArticle`: unconfigured, removes exactly the article's id from
        the Map; configured, sends a delete for that id (returned) and leaves
        the Map alone. Errors are swallowed. */
    method DeleteArticle(title: string, source: string) returns (request: Option<string>)
      requires Valid()
      modifies this
      ensures Valid()
      ensures config.None? ==> memory == old(memory) - {GenerateArticleId(md5, title, source)} &&
                               order == Without(old(order), GenerateArticleId(md5, title, source)) && request == None
      ensures config.Some? ==> memory == old(memory) && order == old(order) &&
                               request == Some(GenerateArticleId(md5, title, source))
    {
      var id := GenerateArticleId(md5, title, source);
      if config.None? {
        memory := memory - {id};
        order := Without(order, id);
        return None;
      }
      return Some(id);
    }

    /** `getAllArticles`: unconfigured, the Map's values in insertion order;
        configured, the non-null answers of `getArticle(key, "")` over the
        keys matching the pattern, none when listing fails. */
    method GetAllArticles(pattern: string, backend: KvBackend) returns (articles: seq<StoredArticle>)
      requires Valid()
      ensures config.None? ==> articles == Values()
      ensures config.Some? ==> articles == GetAllFromKeys(md5, KeysOf(backend.listKeys(pattern)), backend)
    {
      if config.None? {
        return Values();
      }
      var keys := KeysOf(backend.listKeys(pattern));
      articles := [];
      var i := 0;
      while i < |keys|
        invariant 0 <= i <= |keys|
        invariant articles == GetAllFromKeys(md5, keys[..i], backend)
      {
        var article := GetArticle(keys[i], "", backend);
        GetAllFromKeysStep(md5, keys, i, backend);
        if article.Some? {
          articles := articles + [article.value];
        }
        i := i + 1;
      }
      assert keys[..|keys|] == keys;
    }

    /** `clearAllArticles`: unconfigured, empties the Map; configured, lists
        every key and deletes them one by one until a delete fails, leaving
        the Map alone. Returns the keys it sent deletes for. */
    method ClearAllArticles(backend: KvBackend) returns (deleted: seq<string>)
      requires Valid()
      modifies this
      ensures Valid()
      ensures config.None? ==> memory == map[] && order == [] && deleted == []
      ensures config.Some? ==> memory == old(memory) && order == old(order) &&
                               deleted == DeletesIssued(KeysOf(backend.listKeys("*")), backend.remove)
    {
      if config.None? {
        memory := map[];
        order := [];
        return [];
      }
      var keys := KeysOf(backend.listKeys("*"));
      deleted := [];
      var i := 0;
      while i < |keys|
        invariant 0 <= i <= |keys|
        invariant deleted + DeletesIssued(keys[i..], backend.remove) == DeletesIssued(keys, backend.remove)
      {
        deleted := deleted + [keys[i]];
        if backend.remove(keys[i]).Fail? {
          return;
        }
        assert keys[i..][1..] == keys[i + 1..];
        i := i + 1;
      }
    }
  }

  /** A duplicate-free sequence has as many elements as the set of them. */
  lemma {:induction false} DistinctCard(s: seq<string>, keys: set<string>)
    requires NoDuplicates(s) && forall k :: k in keys <==> k in s
    ensures |keys| == |s|
  {
    if |s| > 0 {
      var rest := keys - {s[0]};
      assert forall k :: k in rest <==> k in s[1..];
      DistinctCard(s[1..], rest);
    } else {
      assert keys == {};
    }
  }
}
