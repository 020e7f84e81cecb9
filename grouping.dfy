/** `groupChannelsIntoCategories` (services/playlistParser.ts:122-137, public/parser.worker.js:111-126):
    channels are bucketed by group name, in encounter order, and the buckets are listed by name. */
module Grouping {
  import opened Types
  import opened Text

  /** `channel.group || 'General'` */
  function GroupName(c: Channel): (g: string)
    ensures g != ""
    ensures c.group != "" ==> g == c.group
  {
    if c.group != "" then c.group else "General"
  }

  /** The channels of group `name`, in the order they come in `chs`. */
  function Members(chs: seq<Channel>, name: string): (r: seq<Channel>)
    ensures |r| <= |chs|
    ensures forall j :: 0 <= j < |r| ==> GroupName(r[j]) == name && r[j] in chs
  {
    if chs == [] then []
    else
      var init, last := chs[..|chs| - 1], chs[|chs| - 1];
      Members(init, name) + (if GroupName(last) == name then [last] else [])
  }

  /** The group names in the order of their first channel (the key order of `categoryMap`). */
  function Names(chs: seq<Channel>): (names: seq<string>)
    ensures forall i, j :: 0 <= i < j < |names| ==> names[i] != names[j]
  {
    if chs == [] then []
    else
      var prev, g := Names(chs[..|chs| - 1]), GroupName(chs[|chs| - 1]);
      if g in prev then prev else prev + [g]
  }

  /** The contents of `categoryMap` after the first `|chs|` iterations. */
  function Buckets(chs: seq<Channel>): map<string, seq<Channel>> {
    if chs == [] then map[]
    else
      var m, last := Buckets(chs[..|chs| - 1]), chs[|chs| - 1];
      var g := GroupName(last);
      m[g := (if g in m then m[g] else []) + [last]]
  }

  function Categorize(chs: seq<Channel>, names: seq<string>): (cats: seq<Category>)
    ensures |cats| == |names|
    ensures forall k :: 0 <= k < |names| ==> cats[k] == Category(names[k], Members(chs, names[k]))
  {
    if names == [] then [] else [Category(names[0], Members(chs, names[0]))] + Categorize(chs, names[1..])
  }

  /** The categories of `chs`: one per group name, sorted by name, each with its channels. */
  function Group(chs: seq<Channel>): seq<Category> {
    Categorize(chs, Sort(Names(chs)))
  }

  /** All channels of the categories, category after category. */
  function ChannelsOf(cats: seq<Category>): seq<Channel> {
    if cats == [] then [] else cats[0].channels + ChannelsOf(cats[1..])
  }

  // ---------------------------------------------------------------------------
  // The loop

  method GroupChannels(channels: seq<Channel>) returns (categories: seq<Category>)
    ensures categories == Group(channels)
  {
    var categoryMap: map<string, seq<Channel>> := map[];
    var keys: seq<string> := [];
    var i := 0;
    while i < |channels|
      invariant 0 <= i <= |channels|
      invariant categoryMap == Buckets(channels[..i])
      invariant keys == Names(channels[..i])
    {
      var channel := channels[i];
      var groupName := GroupName(channel);
      GroupStep(channels, i);
      if groupName !in categoryMap {
        categoryMap := categoryMap[groupName := []];
        keys := keys + [groupName];
      }
      categoryMap := categoryMap[groupName := categoryMap[groupName] + [channel]];
      i := i + 1;
    }
    assert channels[..i] == channels;
    var names := Sort(keys);
    BucketsName(channels, names);
    categories := seq(|names|, k requires 0 <= k < |names| => Category(names[k], categoryMap[names[k]]));
  }

  /** One iteration of the loop: the channel joins its bucket, which is created, and its name
      listed, when it is the first of its group. */
  lemma GroupStep(chs: seq<Channel>, i: nat)
    requires i < |chs|
    ensures var m, keys, g := Buckets(chs[..i]), Names(chs[..i]), GroupName(chs[i]);
            var m1 := if g !in m then m[g := []] else m;
            && Buckets(chs[..i + 1]) == m1[g := m1[g] + [chs[i]]]
            && Names(chs[..i + 1]) == if g !in m then keys + [g] else keys
  {
    assert chs[..i + 1] == chs[..i] + [chs[i]];
    BucketsSnoc(chs[..i], chs[i]);
  }

  lemma BucketsSnoc(chs: seq<Channel>, x: Channel)
    ensures var g := GroupName(x);
            && (g in Buckets(chs) <==> g in Names(chs))
            && Buckets(chs + [x]) == Buckets(chs)[g := (if g in Buckets(chs) then Buckets(chs)[g] else []) + [x]]
            && Names(chs + [x]) == if g in Names(chs) then Names(chs) else Names(chs) + [g]
  {
    assert (chs + [x])[..|chs|] == chs;
    BucketsAreMembers(chs);
  }

  /** The buckets read in the order of the sorted names are the categories. */
  lemma BucketsName(chs: seq<Channel>, names: seq<string>)
    requires names == Sort(Names(chs))
    ensures forall k :: 0 <= k < |names| ==> names[k] in Buckets(chs)
    ensures seq(|names|, k requires 0 <= k < |names| => Category(names[k], Buckets(chs)[names[k]])) == Group(chs)
  {
    BucketsAreMembers(chs);
    forall k | 0 <= k < |names| ensures names[k] in Names(chs) {
      SortMembers(Names(chs), names[k]);
    }
  }

  // ---------------------------------------------------------------------------
  // Properties

  /** A name is listed exactly when some channel carries it. */
  lemma {:induction false} NamesHaveMembers(chs: seq<Channel>, name: string)
    ensures name in Names(chs) <==> Members(chs, name) != []
  {
    if chs != [] {
      NamesHaveMembers(chs[..|chs| - 1], name);
    }
  }

  lemma {:induction false} BucketsAreMembers(chs: seq<Channel>)
    ensures forall n :: n in Buckets(chs) <==> n in Names(chs)
    ensures forall n :: n in Buckets(chs) ==> Buckets(chs)[n] == Members(chs, n)
  {
    if chs != [] {
      var init := chs[..|chs| - 1];
      BucketsAreMembers(init);
      NamesHaveMembers(init, GroupName(chs[|chs| - 1]));
    }
  }

  lemma {:induction false} NamesCover(chs: seq<Channel>, k: nat)
    requires k < |chs|
    ensures GroupName(chs[k]) in Names(chs)
  {
    var init := chs[..|chs| - 1];
    if k < |chs| - 1 {
      NamesCover(init, k);
    }
  }

  /** Category names are distinct and strictly ascending, and each is the group of some channel
      and names a category with at least one channel. */
  lemma GroupNamesSorted(chs: seq<Channel>)
    ensures var cats := Group(chs);
            && (forall i, j :: 0 <= i < j < |cats| ==> Less(cats[i].name, cats[j].name))
            && (forall i :: 0 <= i < |cats| ==> |cats[i].channels| > 0)
  {
    var names := Sort(Names(chs));
    forall i | 0 <= i < |names| ensures Members(chs, names[i]) != [] {
      SortMembers(Names(chs), names[i]);
      NamesHaveMembers(chs, names[i]);
    }
  }

  /** Every channel's group names a category. */
  lemma GroupComplete(chs: seq<Channel>, k: nat)
    requires k < |chs|
    ensures exists i :: 0 <= i < |Group(chs)| && Group(chs)[i].name == GroupName(chs[k])
  {
    var keys, g := Names(chs), GroupName(chs[k]);
    var names := Sort(keys);
    NamesCover(chs, k);
    SortMembers(keys, g);
    var i := Position(names, g);
    assert Group(chs)[i].name == g;
  }

  /** Where `x` first occurs in `s`. */
  function Position(s: seq<string>, x: string): (i: nat)
    requires x in s
    ensures i < |s| && s[i] == x
  {
    if s[0] == x then 0 else 1 + Position(s[1..], x)
  }

  /** Each channel sits in the category named after its group, and a category keeps the order
      of its channels in the input: the members of a concatenation are the members of its parts,
      one after the other. */
  lemma {:induction false} MembersConcat(a: seq<Channel>, b: seq<Channel>, name: string)
    ensures Members(a + b, name) == Members(a, name) + Members(b, name)
  {
    if b == [] {
      assert a + b == a;
    } else {
      var init := b[..|b| - 1];
      assert (a + b)[..|a + b| - 1] == a + init;
      MembersConcat(a, init, name);
    }
  }

  /** The members of each listed name, name after name. */
  function Spread(chs: seq<Channel>, names: seq<string>): seq<Channel> {
    if names == [] then [] else Members(chs, names[0]) + Spread(chs, names[1..])
  }

  lemma {:induction false} CategorizeSpread(chs: seq<Channel>, names: seq<string>)
    ensures ChannelsOf(Categorize(chs, names)) == Spread(chs, names)
  {
    if names != [] {
      var cats := Categorize(chs, names);
      assert cats[1..] == Categorize(chs, names[1..]);
      CategorizeSpread(chs, names[1..]);
    }
  }

  lemma {:induction false} SpreadSnoc(chs: seq<Channel>, x: Channel, names: seq<string>)
    requires forall i, j :: 0 <= i < j < |names| ==> names[i] != names[j]
    ensures multiset(Spread(chs + [x], names))
         == multiset(Spread(chs, names)) + (if GroupName(x) in names then multiset{x} else multiset{})
  {
    if names != [] {
      var n := names[0];
      assert (chs + [x])[..|chs + [x]| - 1] == chs;
      assert Members(chs + [x], n) == Members(chs, n) + (if GroupName(x) == n then [x] else []);
      SpreadSnoc(chs, x, names[1..]);
      if GroupName(x) == n {
        assert GroupName(x) !in names[1..];
      } else {
        assert GroupName(x) in names <==> GroupName(x) in names[1..];
      }
    }
  }

  lemma {:induction false} PartitionCovers(chs: seq<Channel>, names: seq<string>)
    requires forall i, j :: 0 <= i < j < |names| ==> names[i] != names[j]
    requires forall k :: 0 <= k < |chs| ==> GroupName(chs[k]) in names
    ensures multiset(Spread(chs, names)) == multiset(chs)
  {
    if chs == [] {
      if names != [] {
        PartitionCovers(chs, names[1..]);
      }
    } else {
      var init, x := chs[..|chs| - 1], chs[|chs| - 1];
      assert init + [x] == chs;
      PartitionCovers(init, names);
      SpreadSnoc(init, x, names);
    }
  }

  /** No channel is dropped or duplicated: the categories hold a permutation of the input. */
  lemma GroupPermutes(chs: seq<Channel>)
    ensures multiset(ChannelsOf(Group(chs))) == multiset(chs)
  {
    var keys := Names(chs);
    var names := Sort(keys);
    assert Group(chs) == Categorize(chs, names);
    forall k | 0 <= k < |chs| ensures GroupName(chs[k]) in names {
      NamesCover(chs, k);
      SortMembers(keys, GroupName(chs[k]));
    }
    SortedDistinct(names);
    PartitionCovers(chs, names);
    CategorizeSpread(chs, names);
  }
}
