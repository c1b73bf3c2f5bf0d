// The API registry UI's provider-registry helpers: the tag list offered as
// filters, gathered from every provider's comma-separated tags and sorted,
// and the `.env` file of a provider's public information. The service calls
// themselves are network requests and are not part of this model.
module ProviderRegistryService {
  import opened Wrappers
  import opened Strings

  datatype Provider = Provider(id: int, name: string, code: string, tags: Option<string>)

  datatype KeySummary = KeySummary(keyId: string, keyType: string, keyStatus: string, clientId: string,
                                   publicKeyPem: Option<string>)

  datatype Environment = Environment(environmentType: string, baseUrl: Option<string>)

  // ---------------------------------------------------------------- string order

  /** The order of `Array.prototype.sort` without a comparator on strings:
    * character by character, a proper prefix first. */
  predicate StrLe(a: string, b: string)
  {
    a == [] || (b != [] && (a[0] < b[0] || (a[0] == b[0] && StrLe(a[1..], b[1..]))))
  }

  lemma {:induction false} StrLeTotal(a: string, b: string)
    ensures StrLe(a, b) || StrLe(b, a)
    decreases |a|
  {
    if a != [] && b != [] && a[0] == b[0] {
      StrLeTotal(a[1..], b[1..]);
    }
  }

  lemma {:induction false} StrLeAntisymmetric(a: string, b: string)
    requires StrLe(a, b) && StrLe(b, a)
    ensures a == b
    decreases |a|
  {
    if a != [] {
      StrLeAntisymmetric(a[1..], b[1..]);
      assert a == [a[0]] + a[1..] && b == [b[0]] + b[1..];
    }
  }

  lemma {:induction false} StrLeTransitive(a: string, b: string, c: string)
    requires StrLe(a, b) && StrLe(b, c)
    ensures StrLe(a, c)
    decreases |a|
  {
    if a != [] && a[0] == b[0] && b[0] == c[0] {
      StrLeTransitive(a[1..], b[1..], c[1..]);
    }
  }

  predicate Sorted(xs: seq<string>)
  {
    forall i, j :: 0 <= i < j < |xs| ==> StrLe(xs[i], xs[j])
  }

  /** `x` put in place in a sorted list. */
  function Insert(xs: seq<string>, x: string): (r: seq<string>)
    ensures |r| == |xs| + 1
    ensures forall z :: z in r <==> z in xs || z == x
    ensures multiset(r) == multiset(xs) + multiset{x}
  {
    if xs == [] then [x]
    else if StrLe(x, xs[0]) then [x] + xs
    else
      assert xs == [xs[0]] + xs[1..];
      [xs[0]] + Insert(xs[1..], x)
  }

  lemma {:induction false} InsertSorted(xs: seq<string>, x: string)
    requires Sorted(xs)
    ensures Sorted(Insert(xs, x))
    decreases |xs|
  {
    if xs != [] {
      if StrLe(x, xs[0]) {
        var r := [x] + xs;
        forall i, j | 0 <= i < j < |r| ensures StrLe(r[i], r[j]) {
          if i == 0 && j > 1 { StrLeTransitive(x, xs[0], xs[j - 1]); }
        }
      } else {
        StrLeTotal(x, xs[0]);
        InsertSorted(xs[1..], x);
        var rest := Insert(xs[1..], x);
        var r := [xs[0]] + rest;
        forall j | 0 <= j < |rest| ensures StrLe(xs[0], rest[j]) {
          assert rest[j] in xs[1..] || rest[j] == x;
        }
        assert Sorted(r);
      }
    }
  }

  lemma {:induction false} InsertDistinct(xs: seq<string>, x: string)
    requires Distinct(xs) && x !in xs
    ensures Distinct(Insert(xs, x))
    decreases |xs|
  {
    if xs != [] && !StrLe(x, xs[0]) {
      assert xs[0] !in xs[1..];
      InsertDistinct(xs[1..], x);
    }
  }

  /** Insertion sort. */
  function Sort(xs: seq<string>): (r: seq<string>)
    ensures |r| == |xs|
    ensures forall z :: z in r <==> z in xs
    ensures multiset(r) == multiset(xs)
  {
    if xs == [] then []
    else
      var init := xs[..|xs| - 1];
      assert xs == init + [xs[|xs| - 1]];
      Insert(Sort(init), xs[|xs| - 1])
  }

  /** Sorting gives a sorted list, without repeats when there were none. */
  lemma {:induction false} SortRules(xs: seq<string>)
    ensures Sorted(Sort(xs))
    ensures Distinct(xs) ==> Distinct(Sort(xs))
    decreases |xs|
  {
    if xs != [] {
      var init := xs[..|xs| - 1];
      SortRules(init);
      InsertSorted(Sort(init), xs[|xs| - 1]);
      if Distinct(xs) {
        assert Distinct(init);
        assert xs[|xs| - 1] !in init;
        InsertDistinct(Sort(init), xs[|xs| - 1]);
      }
    }
  }

  // ---------------------------------------------------------------- tags

  /** One provider's tags: `(p.tags || '').split(',').map(trim).filter(Boolean)`. */
  function TagsOf(p: Provider): seq<string>
  {
    CsvValues(p.tags.GetOr(""))
  }

  /** The lists one after the other. */
  function Concat(lists: seq<seq<string>>): seq<string>
  {
    if lists == [] then [] else Concat(lists[..|lists| - 1]) + lists[|lists| - 1]
  }

  lemma ConcatSnoc(lists: seq<seq<string>>, i: int)
    requires 0 <= i < |lists|
    ensures Concat(lists[..i + 1]) == Concat(lists[..i]) + lists[i]
  {
    var q := lists[..i + 1];
    assert q[..|q| - 1] == lists[..i];
    assert q[|q| - 1] == lists[i];
  }

  lemma {:induction false} ConcatMembers(lists: seq<seq<string>>, t: string)
    ensures t in Concat(lists) <==> exists i :: 0 <= i < |lists| && t in lists[i]
    decreases |lists|
  {
    if lists != [] {
      var init := lists[..|lists| - 1];
      ConcatMembers(init, t);
      if t in Concat(lists) && t in Concat(init) {
        var i :| 0 <= i < |init| && t in init[i];
        assert lists[i] == init[i];
      }
      if t !in Concat(lists) {
        forall i | 0 <= i < |lists| ensures t !in lists[i] {
          if i < |init| { assert lists[i] == init[i]; }
        }
      }
    }
  }

  /** Each provider's tags, in the providers' order. */
  function TagLists(ps: seq<Provider>): (r: seq<seq<string>>)
    ensures |r| == |ps|
    ensures forall i :: 0 <= i < |ps| ==> r[i] == TagsOf(ps[i])
  {
    seq(|ps|, i requires 0 <= i < |ps| => TagsOf(ps[i]))
  }

  /** Every provider's tags, in order, repeats included. */
  function AllTags(ps: seq<Provider>): seq<string>
  {
    Concat(TagLists(ps))
  }

  /** `extractTagsSet`: the tags go into a set, in first-seen order, which
    * is then sorted. */
  method ExtractTagsSet(providers: seq<Provider>) returns (r: seq<string>)
    ensures Sorted(r) && Distinct(r)
    ensures forall t :: t in r <==> t in AllTags(providers)
  {
    var seen := Gather(TagLists(providers));
    r := SortSet(seen);
  }

  /** The loop of `extractTagsSet`: the set after each provider's tags. */
  method Gather(lists: seq<seq<string>>) returns (seen: seq<string>)
    ensures Distinct(seen)
    ensures forall t :: t in seen <==> t in Concat(lists)
  {
    seen := [];
    var i := 0;
    while i < |lists|
      invariant 0 <= i <= |lists|
      invariant Distinct(seen)
      invariant forall t :: t in seen <==> t in Concat(lists[..i])
    {
      ConcatSnoc(lists, i);
      seen := AddAll(seen, lists[i]);
      i := i + 1;
    }
    assert lists[..i] == lists;
  }

  /** `[...set].sort()`. */
  method SortSet(seen: seq<string>) returns (r: seq<string>)
    requires Distinct(seen)
    ensures Sorted(r) && Distinct(r)
    ensures forall t :: t in r <==> t in seen
  {
    SortRules(seen);
    r := Sort(seen);
  }

  /** `forEach(t => set.add(t))`: each tag not yet in the set is added at its end. */
  method AddAll(seen0: seq<string>, tags: seq<string>) returns (seen: seq<string>)
    requires Distinct(seen0)
    ensures Distinct(seen)
    ensures forall t :: t in seen <==> t in seen0 || t in tags
  {
    seen := seen0;
    var j := 0;
    while j < |tags|
      invariant 0 <= j <= |tags|
      invariant Distinct(seen)
      invariant forall t :: t in seen <==> t in seen0 || t in tags[..j]
    {
      assert tags[..j + 1] == tags[..j] + [tags[j]];
      if tags[j] !in seen {
        seen := seen + [tags[j]];
      }
      j := j + 1;
    }
    assert tags[..j] == tags;
  }

  /** A tag is offered exactly when some provider lists it. */
  lemma AllTagsMembers(ps: seq<Provider>, t: string)
    ensures t in AllTags(ps) <==> exists i :: 0 <= i < |ps| && t in TagsOf(ps[i])
  {
    var lists := TagLists(ps);
    ConcatMembers(lists, t);
    if t in AllTags(ps) {
      var i :| 0 <= i < |lists| && t in lists[i];
      assert t in TagsOf(ps[i]);
    }
  }

  /** A provider's tags come after the tags of the providers before it. */
  lemma AllTagsSnoc(ps: seq<Provider>, p: Provider)
    ensures AllTags(ps + [p]) == AllTags(ps) + TagsOf(p)
  {
    var lists := TagLists(ps + [p]);
    TagListsSnoc(ps, p);
    ConcatSnoc(lists, |ps|);
    assert lists[..|ps| + 1] == lists;
  }

  lemma TagListsSnoc(ps: seq<Provider>, p: Provider)
    ensures TagLists(ps + [p])[..|ps|] == TagLists(ps)
    ensures TagLists(ps + [p])[|ps|] == TagsOf(p)
  {
  }

  /** A provider with no tags, or an empty tag text, adds nothing. */
  lemma NoTags(p: Provider)
    requires p.tags.None? || p.tags == Some("")
    ensures TagsOf(p) == []
  {
    assert p.tags.GetOr("") == "";
    CsvValuesEmpty();
  }

  /** Every offered tag is non-empty, comma-free and trimmed. */
  lemma TagsWellFormed(ps: seq<Provider>)
    ensures forall t :: t in AllTags(ps) ==> IsCsvValue(t)
  {
    forall t | t in AllTags(ps)
      ensures IsCsvValue(t)
    {
      AllTagsMembers(ps, t);
      var i :| 0 <= i < |ps| && t in TagsOf(ps[i]);
      CsvValuesWellFormed(ps[i].tags.GetOr(""));
    }
  }

  // ---------------------------------------------------------------- .env file

  const HEADER: string := "# Provider public " + "information exported from CDB"
  const NOTE: string := "# Note: PUBLIC_KEY " + "is PEM formatted " + "with newlines escaped " + "as \\n for .env "
                        + "compatibility"

  /** Each line break written as the two characters backslash and n. */
  function Escape(s: string): string
  {
    ReplaceChar(s, '\n', "\\n")
  }

  /** The lines `buildEnvFileContent` pushes. */
  function EnvLines(p: Provider, publicKeyPem: Option<string>, prodBaseUrl: Option<string>,
                    sandboxBaseUrl: Option<string>): seq<string>
  {
    [HEADER, "# Name: " + p.name, "# Code: " + p.code, "",
     "TARGET_PROVDER_ID=" + IntToString(p.id),
     "TARGET_PROVIDER_CODE=" + p.code,
     "TARGET_PROVIDER_PROD_BASE_URL=" + prodBaseUrl.GetOr(""),
     "TARGET_PROVIDER_SANDBOX_BASE_URL=" + sandboxBaseUrl.GetOr(""),
     "TARGET_PROVIDER_PUBLIC_KEY=" + Escape(publicKeyPem.GetOr("")),
     "", NOTE]
  }

  function EnvFileContent(p: Provider, publicKeyPem: Option<string>, prodBaseUrl: Option<string>,
                          sandboxBaseUrl: Option<string>): string
  {
    Join(EnvLines(p, publicKeyPem, prodBaseUrl, sandboxBaseUrl), "\n")
  }

  lemma {:induction false} EscapeRules(s: string)
    ensures '\n' !in Escape(s)
    ensures '\n' !in s ==> Escape(s) == s
    decreases |s|
  {
    if s != [] {
      EscapeRules(s[1..]);
    }
  }

  lemma IdHasNoBreak(id: int)
    ensures '\n' !in IntToString(id)
  {
    var d := NatToString(if id < 0 then -id else id);
    assert All(d, IsDigit);
    if id < 0 {
      assert IntToString(id) == "-" + d;
      assert forall i :: 0 <= i < |"-" + d| ==> ("-" + d)[i] != '\n' by {
        forall i | 0 <= i < |"-" + d| ensures ("-" + d)[i] != '\n' {
          if i > 0 { assert ("-" + d)[i] == d[i - 1]; }
        }
      }
    }
  }

  /** The file is read back line by line as the eleven lines pushed, when
    * the name, the code and the URLs hold no line break: the public key,
    * line breaks escaped, takes a single line and the id line reads
    * TARGET_PROVDER_ID=<id>; a missing URL or key leaves the value empty. */
  lemma EnvFileLines(p: Provider, publicKeyPem: Option<string>, prodBaseUrl: Option<string>,
                     sandboxBaseUrl: Option<string>)
    requires '\n' !in p.name && '\n' !in p.code
    requires prodBaseUrl.Some? ==> '\n' !in prodBaseUrl.value
    requires sandboxBaseUrl.Some? ==> '\n' !in sandboxBaseUrl.value
    ensures var lines := Split(EnvFileContent(p, publicKeyPem, prodBaseUrl, sandboxBaseUrl), '\n');
      && lines == EnvLines(p, publicKeyPem, prodBaseUrl, sandboxBaseUrl)
      && |lines| == 11 && lines[0] == HEADER
      && lines[4] == "TARGET_PROVDER_ID=" + IntToString(p.id)
      && lines[8] == "TARGET_PROVIDER_PUBLIC_KEY=" + Escape(publicKeyPem.GetOr(""))
      && (prodBaseUrl.None? ==> lines[6] == "TARGET_PROVIDER_PROD_BASE_URL=")
      && (sandboxBaseUrl.None? ==> lines[7] == "TARGET_PROVIDER_SANDBOX_BASE_URL=")
      && (publicKeyPem.None? ==> lines[8] == "TARGET_PROVIDER_PUBLIC_KEY=")
  {
    var lines := EnvLines(p, publicKeyPem, prodBaseUrl, sandboxBaseUrl);
    EnvLinesNoBreak(p, publicKeyPem, prodBaseUrl, sandboxBaseUrl);
    SplitJoin(lines, '\n');
  }

  lemma EnvLinesNoBreak(p: Provider, publicKeyPem: Option<string>, prodBaseUrl: Option<string>,
                        sandboxBaseUrl: Option<string>)
    requires '\n' !in p.name && '\n' !in p.code
    requires prodBaseUrl.Some? ==> '\n' !in prodBaseUrl.value
    requires sandboxBaseUrl.Some? ==> '\n' !in sandboxBaseUrl.value
    ensures forall i :: 0 <= i < |EnvLines(p, publicKeyPem, prodBaseUrl, sandboxBaseUrl)| ==>
      '\n' !in EnvLines(p, publicKeyPem, prodBaseUrl, sandboxBaseUrl)[i]
  {
    EscapeRules(publicKeyPem.GetOr(""));
    IdHasNoBreak(p.id);
    NoBreakLiterals();
    NoBreakNote();
    NoBreakKeys();
  }

  lemma NoBreakLiterals()
    ensures '\n' !in HEADER && '\n' !in "# Name: " && '\n' !in "# Code: "
  {
  }

  lemma NoBreakNote()
    ensures '\n' !in NOTE
  {
  }

  lemma NoBreakKeys()
    ensures '\n' !in "TARGET_PROVDER_ID=" && '\n' !in "TARGET_PROVIDER_CODE="
    ensures '\n' !in "TARGET_PROVIDER_PROD_BASE_URL=" && '\n' !in "TARGET_PROVIDER_SANDBOX_BASE_URL="
    ensures '\n' !in "TARGET_PROVIDER_PUBLIC_KEY="
  {
  }
}
