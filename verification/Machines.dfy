/** Which machine a name refers to: the inventory's own names, their other
    spellings, and the names and addresses a site gives its machines
    (internal/app/machine.go). */
module Machines {
  import opened Options
  import opened Text

  datatype Node = Node(name: string, address: string, bmcAddress: string)

  /** The naming rules: the host name and the service processor name of a node,
      where they give one. */
  datatype Namer = Namer(fqdn: string -> Option<string>, bmc: string -> Option<string>)

  /** An inventory and the rules; canonical finds the inventory's name for one
      written with other padding. */
  datatype Site = Site(nodes: seq<Node>, namer: Option<Namer>, canonical: string -> Option<string>, isIP: string -> bool)

  function TrimDot(s: string): string {
    if s != "" && s[|s| - 1] == '.' then s[..|s| - 1] else s
  }

  function Norm(s: string): string {
    TrimDot(ToLower(s))
  }

  /** In lower case, and without the final dot that only makes a name absolute. */
  lemma {:induction false} NormIs(s: string, a: string)
    ensures Norm(s) == a <==> ToLower(s) == a + "." || (ToLower(s) == a && !EndsInDot(a))
  {
    var lower := ToLower(s);
    if EndsInDot(lower) {
      assert lower == lower[..|lower| - 1] + ".";
    }
    if lower == a + "." {
      assert lower[..|lower| - 1] == a;
    }
  }

  predicate EndsInDot(s: string) {
    s != "" && s[|s| - 1] == '.'
  }

  predicate NameAmong(site: Site, a: string, k: nat)
    requires k <= |site.nodes|
  {
    exists i :: 0 <= i < k && site.nodes[i].name == a
  }

  predicate IsName(site: Site, a: string) {
    NameAmong(site, a, |site.nodes|)
  }

  lemma {:induction false} OneNameMore(site: Site, a: string, k: nat)
    requires k < |site.nodes|
    ensures NameAmong(site, a, k + 1) <==> NameAmong(site, a, k) || site.nodes[k].name == a
  {
  }

  /** An inventory as it is read: every name in lower case, none empty and none
      with a final dot; and another padding of one of its names is one of them. */
  ghost predicate Wellformed(site: Site) {
    && (forall i :: 0 <= i < |site.nodes| ==> site.nodes[i].name != "" && Norm(site.nodes[i].name) == site.nodes[i].name)
    && (forall n: string :: site.canonical(n).Some? ==> IsName(site, site.canonical(n).value))
  }

  // ----- the alias table -----

  /** The names and addresses a site gives a machine besides its own. */
  function Given(site: Site, n: Node): seq<string> {
    (match site.namer
     case None => []
     case Some(namer) =>
       (match namer.fqdn(n.name) case Some(fqdn) => [fqdn] case None => [])
       + (match namer.bmc(n.name) case Some(bmc) => [bmc] case None => []))
    + [n.address, n.bmcAddress]
  }

  /** A machine has a name or address that is no machine's own name. */
  predicate Has(site: Site, n: Node, a: string) {
    a != "" && !IsName(site, a) && exists k :: 0 <= k < |Given(site, n)| && Norm(Given(site, n)[k]) == a
  }

  /** What a site gives a machine: its address, the address of its service
      processor, and the host name and processor name the rules have for it. */
  ghost predicate Gives(site: Site, n: Node, x: string) {
    || x == n.address || x == n.bmcAddress
    || (site.namer.Some? && (site.namer.value.fqdn(n.name) == Some(x) || site.namer.value.bmc(n.name) == Some(x)))
  }

  /** A machine has those of them, in any case and absolute or not, that are not
      empty and no machine's own name. */
  lemma {:induction false} HasIs(site: Site, n: Node, a: string)
    ensures Has(site, n, a) <==>
            && a != "" && (forall i :: 0 <= i < |site.nodes| ==> site.nodes[i].name != a)
            && exists x :: Gives(site, n, x) && (ToLower(x) == a + "." || (ToLower(x) == a && !EndsInDot(a)))
  {
    var given := Given(site, n);
    forall x ensures x in given <==> Gives(site, n, x) {
      GivenIs(site, n, x);
    }
    if x :| Gives(site, n, x) && (ToLower(x) == a + "." || (ToLower(x) == a && !EndsInDot(a))) {
      NormIs(x, a);
      var k :| 0 <= k < |given| && given[k] == x;
      assert Norm(given[k]) == a;
    }
    if k :| 0 <= k < |given| && Norm(given[k]) == a {
      NormIs(given[k], a);
      assert given[k] in given;
    }
  }

  lemma {:induction false} GivenIs(site: Site, n: Node, x: string)
    ensures x in Given(site, n) <==> Gives(site, n, x)
  {
  }

  /** Whose an alias is. */
  datatype Owner = Nobody | One(name: string) | Shared

  function OneMore(o: Owner, name: string): Owner {
    match o
    case Nobody => One(name)
    case One(other) => if other == name then o else Shared
    case Shared => Shared
  }

  /** Whose an alias is among the first k machines. */
  function OwnerAmong(site: Site, a: string, k: nat): Owner
    requires k <= |site.nodes|
  {
    if k == 0 then Nobody
    else
      var o := OwnerAmong(site, a, k - 1);
      if Has(site, site.nodes[k - 1], a) then OneMore(o, site.nodes[k - 1].name) else o
  }

  function OwnerOf(site: Site, a: string): Owner {
    OwnerAmong(site, a, |site.nodes|)
  }

  /** What the table holds for an alias: an alias two machines share names neither. */
  function Entry(o: Owner): Option<string> {
    match o
    case Nobody => None
    case One(name) => Some(name)
    case Shared => Some("")
  }

  function Looked(aliases: map<string, string>, a: string): Option<string> {
    if a in aliases then Some(aliases[a]) else None
  }

  /** An alias is a machine's exactly when that machine alone has it, nobody's when
      none has, and shared when machines of two names have. The order of the
      inventory does not come into it. */
  lemma {:induction false} OwnerIs(site: Site, a: string, k: nat)
    requires k <= |site.nodes|
    ensures OwnerAmong(site, a, k) == Nobody <==> forall i :: 0 <= i < k ==> !Has(site, site.nodes[i], a)
    ensures forall m :: OwnerAmong(site, a, k) == One(m) <==>
                          && (exists i :: 0 <= i < k && Has(site, site.nodes[i], a))
                          && (forall i :: 0 <= i < k && Has(site, site.nodes[i], a) ==> site.nodes[i].name == m)
  {
    if k > 0 {
      OwnerIs(site, a, k - 1);
      var n, o := site.nodes[k - 1], OwnerAmong(site, a, k - 1);
      if Has(site, n, a) {
        match o {
          case Nobody =>
          case One(other) =>
            var j :| 0 <= j < k - 1 && Has(site, site.nodes[j], a);
            assert site.nodes[j].name == other;
          case Shared =>
            var i, j := SharedAmong(site, a, k - 1);
        }
      }
    }
  }

  lemma {:induction false} SharedAmong(site: Site, a: string, k: nat) returns (i: nat, j: nat)
    requires k <= |site.nodes| && OwnerAmong(site, a, k) == Shared
    ensures i < k && j < k && Has(site, site.nodes[i], a) && Has(site, site.nodes[j], a)
    ensures site.nodes[i].name != site.nodes[j].name
  {
    var n, o := site.nodes[k - 1], OwnerAmong(site, a, k - 1);
    if o == Shared {
      i, j := SharedAmong(site, a, k - 1);
    } else {
      j := k - 1;
      i := OwnerHas(site, a, k - 1);
    }
  }

  lemma {:induction false} OwnerHas(site: Site, a: string, k: nat) returns (i: nat)
    requires k <= |site.nodes| && OwnerAmong(site, a, k).One?
    ensures i < k && Has(site, site.nodes[i], a) && site.nodes[i].name == OwnerAmong(site, a, k).name
  {
    if OwnerAmong(site, a, k - 1) == OwnerAmong(site, a, k) {
      i := OwnerHas(site, a, k - 1);
    } else {
      i := k - 1;
    }
  }

  /** Two inventories of the same machines, in any order and however often each is
      listed, have the same aliases. */
  lemma {:induction false} OrderDoesNotMatter(s: Site, t: Site, a: string)
    requires s.namer == t.namer && forall n :: n in s.nodes <==> n in t.nodes
    ensures OwnerOf(s, a) == OwnerOf(t, a)
  {
    SameNames(s, t, a);
    OwnerIs(s, a, |s.nodes|);
    OwnerIs(t, a, |t.nodes|);
    OwnerCarries(s, t, a);
    OwnerCarries(t, s, a);
  }

  lemma {:induction false} SameNames(s: Site, t: Site, a: string)
    requires forall n :: n in s.nodes <==> n in t.nodes
    ensures IsName(s, a) <==> IsName(t, a)
  {
    if i :| 0 <= i < |s.nodes| && s.nodes[i].name == a {
      assert s.nodes[i] in t.nodes;
    }
    if i :| 0 <= i < |t.nodes| && t.nodes[i].name == a {
      assert t.nodes[i] in s.nodes;
    }
  }

  lemma {:induction false} OwnerCarries(s: Site, t: Site, a: string)
    requires s.namer == t.namer && (forall n :: n in s.nodes <==> n in t.nodes) && (IsName(s, a) <==> IsName(t, a))
    ensures OwnerOf(s, a) == Nobody ==> OwnerOf(t, a) == Nobody
    ensures OwnerOf(s, a).One? ==> OwnerOf(t, a) == OwnerOf(s, a)
  {
    OwnerIs(s, a, |s.nodes|);
    OwnerIs(t, a, |t.nodes|);
    forall n ensures Has(s, n, a) == Has(t, n, a) {
      assert Given(s, n) == Given(t, n);
    }
    forall i | 0 <= i < |t.nodes| && Has(t, t.nodes[i], a)
      ensures exists j :: 0 <= j < |s.nodes| && s.nodes[j] == t.nodes[i] && Has(s, s.nodes[j], a)
    {
      assert t.nodes[i] in s.nodes;
    }
    if OwnerOf(s, a).One? {
      var j := OwnerHas(s, a, |s.nodes|);
      assert s.nodes[j] in t.nodes;
      var i :| 0 <= i < |t.nodes| && t.nodes[i] == s.nodes[j];
      assert Has(t, t.nodes[i], a);
    }
  }

  class Index {
    const site: Site
    var names: map<string, string>
    var aliases: map<string, string>
    var built: bool

    ghost predicate Valid()
      reads this
    {
      && Wellformed(site)
      && (forall a :: a in names <==> IsName(site, a)) && (forall a :: a in names ==> names[a] == a)
      && (built ==> Built(|site.nodes|))
    }

    /** The table once the aliases of the first k machines are in. */
    ghost predicate Built(k: nat)
      requires k <= |site.nodes|
      reads this
    {
      forall a :: Looked(aliases, a) == if IsName(site, a) then Some(a) else Entry(OwnerAmong(site, a, k))
    }

    /** `machineIndex`. */
    constructor (site: Site)
      requires Wellformed(site)
      ensures Valid() && this.site == site && !built
    {
      this.site := site;
      names, aliases, built := map[], map[], false;
      new;
      for i := 0 to |site.nodes|
        invariant !built && this.site == site
        invariant forall a :: a in names <==> NameAmong(site, a, i)
        invariant forall a :: a in names ==> names[a] == a
      {
        forall a ensures NameAmong(site, a, i + 1) <==> NameAmong(site, a, i) || site.nodes[i].name == a {
          OneNameMore(site, a, i);
        }
        names := names[site.nodes[i].name := site.nodes[i].name];
      }
    }

    /** `alias`: one name or address of a machine. */
    method Alias(alias: string, name: string)
      modifies `aliases
      ensures var a := Norm(alias);
              aliases == if a == "" || a in names then old(aliases)
                         else if a in old(aliases) && old(aliases)[a] != name then old(aliases)[a := ""]
                         else old(aliases)[a := name]
    {
      var a := Norm(alias);
      if a == "" || a in names {
        return;
      }
      if a in aliases && aliases[a] != name {
        aliases := aliases[a := ""];
        return;
      }
      aliases := aliases[a := name];
    }

    /** Every name and address of one machine. */
    method AddAll(k: nat)
      requires Valid() && !built && k < |site.nodes| && Built(k)
      modifies `aliases
      ensures Valid() && Built(k + 1)
    {
      var node := site.nodes[k];
      var given := Given(site, node);
      for j := 0 to |given|
        invariant Valid() && !built
        invariant forall a :: Looked(aliases, a) == EntrySoFar(site, k, j, a)
      {
        ghost var before := aliases;
        Alias(given[j], node.name);
        forall a ensures Looked(aliases, a) == EntrySoFar(site, k, j + 1, a) {
          assert Looked(before, a) == EntrySoFar(site, k, j, a);
          OneAliasMore(site, k, j, a);
        }
      }
      forall a ensures Looked(aliases, a) == if IsName(site, a) then Some(a) else Entry(OwnerAmong(site, a, k + 1)) {
        assert Looked(aliases, a) == EntrySoFar(site, k, |given|, a);
      }
    }

    /** `aliasOf`: the table is built when a name is first looked up. */
    method AliasOf(alias: string) returns (node: Option<string>)
      requires Valid()
      modifies `aliases, `built
      ensures Valid() && built
      ensures node == AliasEntry(site, alias)
      ensures IsName(site, alias) ==> node == Some(alias)
      ensures !IsName(site, alias) ==>
                && (node == None <==> forall n :: n in site.nodes ==> !Has(site, n, alias))
                && (forall m :: m != "" ==> (node == Some(m) <==> OwnedAlone(site, alias, m)))
    {
      if !built {
        aliases := map[];
        for i := 0 to |site.nodes|
          invariant Valid() && !built
          invariant forall a :: Looked(aliases, a) == if NameAmong(site, a, i) then Some(a) else None
        {
          ghost var before := aliases;
          aliases := aliases[site.nodes[i].name := site.nodes[i].name];
          forall a ensures Looked(aliases, a) == if NameAmong(site, a, i + 1) then Some(a) else None {
            OneNameMore(site, a, i);
            assert Looked(before, a) == if NameAmong(site, a, i) then Some(a) else None;
          }
        }
        for k := 0 to |site.nodes|
          invariant Valid() && !built && Built(k)
        {
          AddAll(k);
        }
        built := true;
      }
      node := Looked(aliases, alias);
      AliasIs(site, alias);
    }
  }

  /** What the table holds for an alias: an inventory name is its own machine's. */
  function AliasEntry(site: Site, a: string): Option<string> {
    if IsName(site, a) then Some(a) else Entry(OwnerOf(site, a))
  }

  /** Some machine has the alias, and every one that does has this name. */
  ghost predicate OwnedAlone(site: Site, a: string, m: string) {
    (exists n :: n in site.nodes && Has(site, n, a)) && forall n :: n in site.nodes && Has(site, n, a) ==> n.name == m
  }

  lemma {:induction false} AliasIs(site: Site, a: string)
    requires Wellformed(site)
    ensures IsName(site, a) ==> AliasEntry(site, a) == Some(a)
    ensures !IsName(site, a) ==>
              && (AliasEntry(site, a) == None <==> forall n :: n in site.nodes ==> !Has(site, n, a))
              && (forall m :: m != "" ==> (AliasEntry(site, a) == Some(m) <==> OwnedAlone(site, a, m)))
  {
    OwnerIs(site, a, |site.nodes|);
    OwnerNames(site, a, |site.nodes|);
    forall m ensures OwnerOf(site, a) == One(m) <==> OwnedAlone(site, a, m) {
      if OwnedAlone(site, a, m) {
        var n :| n in site.nodes && Has(site, n, a);
        var i :| 0 <= i < |site.nodes| && site.nodes[i] == n;
        assert Has(site, site.nodes[i], a);
      }
    }
  }

  /** One of the first j names and addresses of a machine. */
  predicate HasAmong(site: Site, n: Node, j: nat, a: string)
    requires j <= |Given(site, n)|
  {
    exists k :: 0 <= k < j && Norm(Given(site, n)[k]) == a
  }

  /** The table with the first k machines in, and the first j names of the next. */
  function EntrySoFar(site: Site, k: nat, j: nat, a: string): Option<string>
    requires k < |site.nodes| && j <= |Given(site, site.nodes[k])|
  {
    if IsName(site, a) then Some(a)
    else
      var o := OwnerAmong(site, a, k);
      Entry(if a != "" && HasAmong(site, site.nodes[k], j, a) then OneMore(o, site.nodes[k].name) else o)
  }

  lemma {:induction false} OneAliasMore(site: Site, k: nat, j: nat, a: string)
    requires Wellformed(site) && k < |site.nodes| && j < |Given(site, site.nodes[k])|
    ensures var name, alias, now := site.nodes[k].name, Norm(Given(site, site.nodes[k])[j]), EntrySoFar(site, k, j, a);
            EntrySoFar(site, k, j + 1, a)
            == if a != alias || a == "" || IsName(site, a) then now
               else if now.Some? && now.value != name then Some("")
               else Some(name)
  {
    var n := site.nodes[k];
    assert HasAmong(site, n, j + 1, a) <==> HasAmong(site, n, j, a) || Norm(Given(site, n)[j]) == a;
    OwnerNames(site, a, k);
  }

  lemma {:induction false} OwnerNames(site: Site, a: string, k: nat)
    requires Wellformed(site) && k <= |site.nodes|
    ensures OwnerAmong(site, a, k).One? ==> OwnerAmong(site, a, k).name != "" && IsName(site, OwnerAmong(site, a, k).name)
  {
    if OwnerAmong(site, a, k).One? {
      var i := OwnerHas(site, a, k);
    }
  }

  // ----- which machine a name refers to -----

  /** `naming.Short`: what is before the first dot. */
  function Short(name: string): string {
    match Cut(name, '.')
    case None => name
    case Some((short, _)) => short
  }

  lemma {:induction false} ShortIs(name: string)
    ensures '.' !in Short(name) && |Short(name)| <= |name|
    ensures Short(name) != name ==> |Short(name)| < |name|
  {
    CutNone(name, '.');
    if Cut(name, '.').Some? {
      CutIs(name, '.');
    }
  }

  /** The machine meant, or the name itself where no machine is known to be; or
      that it could be either of two. */
  datatype Answer = Machine(name: string) | Ambiguous

  /** Whether the naming rules give a short name this host name or service
      processor name. */
  predicate RulesGive(site: Site, short: string, n: string) {
    site.namer.Some? &&
    var fqdn, bmc := site.namer.value.fqdn(short), site.namer.value.bmc(short);
    (fqdn.Some? && ToLower(fqdn.value) == n) || (bmc.Some? && ToLower(bmc.value) == n)
  }

  lemma {:induction false} NormShort(n: string)
    ensures |Norm(n)| <= |n|
  {
  }

  /** `spelling`: the machine a name in lower case is another spelling of, and
      otherwise the name itself. */
  function Spelling(site: Site, n: string): Answer
    decreases |n|, 0
  {
    ShortIs(n);
    var short := Short(n);
    if site.canonical(n).Some? then Machine(site.canonical(n).value)
    else if short != n && !site.isIP(n) && RulesGive(site, short, n) then MachineOf(site, short)
    else Machine(n)
  }

  /** The rules have this host name or processor name for a node. */
  ghost predicate RuledName(site: Site, short: string, n: string) {
    && site.namer.Some?
    && exists x :: ToLower(x) == n
                   && (site.namer.value.fqdn(short) == Some(x) || site.namer.value.bmc(short) == Some(x))
  }

  /** Another padding of a name is that name; a name the rules have for the node
      its first part names is that node; and any other name, and any address, is
      itself. */
  lemma {:induction false} SpellingIs(site: Site, n: string)
    ensures site.canonical(n).Some? ==> Spelling(site, n) == Machine(site.canonical(n).value)
    ensures site.canonical(n).None? ==>
              forall short, domain :: n == short + "." + domain && '.' !in short ==>
                Spelling(site, n)
                == if !site.isIP(n) && RuledName(site, short, n) then MachineOf(site, short) else Machine(n)
    ensures site.canonical(n).None? && '.' !in n ==> Spelling(site, n) == Machine(n)
  {
    CutNone(n, '.');
    forall short, domain | n == short + "." + domain && '.' !in short ensures Short(n) == short && short != n {
      CutAt(short, '.', domain);
      assert short + ['.'] + domain == short + "." + domain;
      assert |n| > |short|;
    }
  }

  /** `machineOf`. */
  function MachineOf(site: Site, name: string): Answer
    decreases |name|, 1
  {
    NormShort(name);
    var n := Norm(name);
    if IsName(site, n) then Machine(n)
    else match Spelling(site, n)
      case Ambiguous => Ambiguous
      case Machine(spelled) =>
        match AliasEntry(site, n)
        case None => Machine(spelled)
        case Some(node) =>
          if IsName(site, spelled) && node != spelled then Ambiguous
          else if node == "" then Machine(n)
          else Machine(node)
  }

  /** The site gives a machine this name or address. */
  predicate HasIt(site: Site, m: string, n: string) {
    exists i :: 0 <= i < |site.nodes| && site.nodes[i].name == m && Has(site, site.nodes[i], n)
  }

  /** A machine that a name, no machine's own, could be: one the site gives the
      name or address to, or one it is another spelling of. */
  predicate CouldBe(site: Site, n: string, m: string) {
    IsName(site, m) && (Spelling(site, n) == Machine(m) || HasIt(site, m, n))
  }

  /** Of the machines of an inventory, a name could be this one alone. */
  ghost predicate Only(site: Site, n: string, m: string) {
    forall o :: CouldBe(site, n, o) <==> o == m
  }

  lemma {:induction false} OwnersAre(site: Site, n: string)
    requires Wellformed(site)
    ensures OwnerOf(site, n) == Nobody ==> forall m :: !HasIt(site, m, n)
    ensures OwnerOf(site, n).One? ==> forall m :: HasIt(site, m, n) <==> m == OwnerOf(site, n).name
    ensures OwnerOf(site, n).One? ==> IsName(site, OwnerOf(site, n).name) && OwnerOf(site, n).name != ""
  {
    OwnerIs(site, n, |site.nodes|);
    OwnerNames(site, n, |site.nodes|);
    if OwnerOf(site, n).One? {
      var i := OwnerHas(site, n, |site.nodes|);
    }
  }

  lemma {:induction false} SharedIsNotOnly(site: Site, n: string, m: string)
    requires Wellformed(site) && OwnerOf(site, n) == Shared
    ensures !Only(site, n, m)
  {
    var i, j := SharedAmong(site, n, |site.nodes|);
    assert IsName(site, site.nodes[i].name) && IsName(site, site.nodes[j].name);
    assert CouldBe(site, n, site.nodes[i].name) && CouldBe(site, n, site.nodes[j].name);
  }

  lemma {:induction false} OneIsOnly(site: Site, n: string, spelled: string, m: string)
    requires Wellformed(site) && OwnerOf(site, n).One? && Spelling(site, n) == Machine(spelled)
    ensures Only(site, n, m) <==> m == OwnerOf(site, n).name && (IsName(site, spelled) ==> spelled == m)
  {
    OwnersAre(site, n);
    var owner := OwnerOf(site, n).name;
    assert CouldBe(site, n, owner) && (IsName(site, spelled) ==> CouldBe(site, n, spelled));
  }

  lemma {:induction false} NobodyIsOnly(site: Site, n: string, spelled: string, m: string)
    requires Wellformed(site) && OwnerOf(site, n) == Nobody && Spelling(site, n) == Machine(spelled) && IsName(site, m)
    ensures Only(site, n, m) <==> m == spelled
  {
    OwnersAre(site, n);
    assert Only(site, n, m) ==> CouldBe(site, n, m);
  }

  /** A machine's own name is that machine, whatever else has it. Of any other
      name the answer is a machine exactly when it could be that one alone; when
      it could be two it names neither, and is refused when it is another spelling
      of one; and when it could be none it is not taken for one. */
  lemma {:induction false} OnlyWhenAlone(site: Site, name: string, m: string)
    requires Wellformed(site)
    ensures IsName(site, Norm(name)) ==> MachineOf(site, name) == Machine(Norm(name))
    ensures !IsName(site, Norm(name)) && Spelling(site, Norm(name)) != Ambiguous && IsName(site, m) ==>
              (MachineOf(site, name) == Machine(m) <==> Only(site, Norm(name), m))
  {
    var n := Norm(name);
    if !IsName(site, n) && Spelling(site, n) != Ambiguous && IsName(site, m) {
      var spelled := Spelling(site, n).name;
      OwnersAre(site, n);
      match OwnerOf(site, n) {
        case Nobody => NobodyIsOnly(site, n, spelled, m);
        case One(_) => OneIsOnly(site, n, spelled, m);
        case Shared =>
          SharedIsNotOnly(site, n, m);
          assert !IsName(site, "");
      }
    }
  }

  // ----- resolving twice -----

  /** Every answer but the name as it was written is what it is of itself. */
  lemma {:induction false} AnswerIsFixed(site: Site, name: string)
    requires Wellformed(site) && MachineOf(site, name).Machine?
    ensures var m := MachineOf(site, name).name; m == Norm(name) || Norm(m) == m
    ensures '.' !in name ==> Norm(MachineOf(site, name).name) == MachineOf(site, name).name
    decreases |name|
  {
    var n := Norm(name);
    NormShort(name);
    ShortIs(n);
    OwnerNames(site, n, |site.nodes|);
    NoDotNorm(name);
    if !IsName(site, n) && site.canonical(n).None? && Short(n) != n && !site.isIP(n) && RulesGive(site, Short(n), n) {
      AnswerIsFixed(site, Short(n));
    }
  }

  lemma {:induction false} NoDotNorm(name: string)
    ensures '.' !in name ==> Norm(Norm(name)) == Norm(name)
  {
    LowerIdempotent(name);
    LowerKeepsOthers(name, '.');
  }

  /** Asking again about an answer gives the same answer. */
  lemma {:induction false} SameAgain(site: Site, name: string)
    requires Wellformed(site) && MachineOf(site, name).Machine?
    requires Norm(MachineOf(site, name).name) == MachineOf(site, name).name
    ensures MachineOf(site, MachineOf(site, name).name) == MachineOf(site, name)
    decreases |name|
  {
    var n, m := Norm(name), MachineOf(site, name).name;
    NormShort(name);
    ShortIs(n);
    OwnerNames(site, n, |site.nodes|);
    if !IsName(site, n) && site.canonical(n).None? && Short(n) != n && !site.isIP(n) && RulesGive(site, Short(n), n) {
      var short := MachineOf(site, Short(n));
      if short.Machine? {
        AnswerIsFixed(site, Short(n));
        SameAgain(site, Short(n));
      }
    }
  }

  /** The site knows which machine a name is that is no machine's own: one alone
      has it, or none has and it is another spelling, or a name the rules give. */
  predicate Resolvable(site: Site, n: string) {
    || OwnerOf(site, n).One?
    || (OwnerOf(site, n).Nobody?
        && (site.canonical(n).Some? || (Short(n) != n && !site.isIP(n) && RulesGive(site, Short(n), n))))
  }

  /** Of a name with a doubled final dot the answer is a machine or the name itself,
      by what the site says of the name. */
  lemma {:induction false} DoubledDotAnswer(site: Site, name: string)
    requires Wellformed(site) && MachineOf(site, name).Machine? && Norm(Norm(name)) != Norm(name)
    ensures var m := MachineOf(site, name).name;
            if Resolvable(site, Norm(name)) then Norm(m) == m else m == Norm(name)
  {
    var n := Norm(name);
    NormShort(name);
    ShortIs(n);
    OwnerNames(site, n, |site.nodes|);
    if site.canonical(n).None? && Short(n) != n && !site.isIP(n) && RulesGive(site, Short(n), n) {
      AnswerIsFixed(site, Short(n));
    }
  }

  /** A name is resolved once and for all exactly when it has no doubled final dot,
      or one machine alone has it, or none does and it is another spelling of a
      machine or a name the rules give one. */
  lemma {:induction false} ResolvedForGood(site: Site, name: string)
    requires Wellformed(site) && MachineOf(site, name).Machine?
    ensures var n, m := Norm(name), MachineOf(site, name).name;
            MachineOf(site, m) == Machine(m) <==> Norm(n) == n || Resolvable(site, n)
  {
    var n, m := Norm(name), MachineOf(site, name).name;
    AnswerIsFixed(site, name);
    if Norm(n) != n {
      DoubledDotAnswer(site, name);
    }
    if Norm(m) == m {
      SameAgain(site, name);
    } else if MachineOf(site, m) == Machine(m) {
      AnswerIsFixed(site, m);
    }
  }

  /** A site that knows one machine and has no rules. */
  function OneMachine(): Site {
    Site([Node("a", "", "")], None, (n: string) => None, (n: string) => false)
  }

  /** A doubled final dot: "a.." is not taken for a machine, and its answer is. */
  lemma {:induction false} DoubledDotResolvesTwice()
    ensures Wellformed(OneMachine())
    ensures MachineOf(OneMachine(), "a..") == Machine("a.") && MachineOf(OneMachine(), "a.") == Machine("a")
  {
    var site := OneMachine();
    assert site.nodes[0].name == "a";
    assert ToLower("a") == "a" && ToLower("a.") == "a." && ToLower("a..") == "a..";
    assert "a.."[..2] == "a." && "a."[..1] == "a";
    assert Norm("a..") == "a." && Norm("a.") == "a";
    assert Norm("") == "";
    assert OwnerAmong(site, "a.", 0) == Nobody;
  }
}
