/**
 * The column index map built from a header row (check_np_array, and the same
 * loop at the top of df_to_dict_tree): every block name and declared column
 * must appear in the header; each is mapped to its first position there.
 */
module IndexMap {
  import opened Wrappers
  import opened Schema

  /** A label the samples must carry: a block name (group None) or a declared column. */
  datatype Label = Label(name: string, group: Option<Group>)

  /** The labels of the given groups of a level, group after group. */
  function GroupLabels(b: BlockLevel, gs: seq<Group>): seq<Label>
  {
    if gs == [] then []
    else
      var cs := Declared(b, gs[0]);
      seq(|cs|, k requires 0 <= k < |cs| => Label(cs[k].name, Some(gs[0]))) + GroupLabels(b, gs[1..])
  }

  /** The labels of one level in checking order: the block name, then its columns group by group. */
  function LevelRequired(b: BlockLevel): seq<Label>
  {
    [Label(b.name, None)] + GroupLabels(b, Groups)
  }

  /** Every label the samples must carry, level after level. */
  function Required(bs: seq<BlockLevel>): seq<Label>
  {
    if bs == [] then [] else LevelRequired(bs[0]) + Required(bs[1..])
  }

  const MissingSuffix := " is " + "missing" + " from the given samples"

  /** The error raised for a label absent from the header. */
  datatype Missing = Missing(absent: Label) {
    /** The text of the ValueError. */
    function Message(): string
    {
      if absent.group.None? then
        "'" + absent.name + "'" + MissingSuffix
      else
        "'" + absent.name + "' " + GroupKey(absent.group.value) + MissingSuffix
    }
  }

  /** part occurs somewhere in s. */
  predicate Contains(s: string, part: string)
  {
    exists i | 0 <= i <= |s| :: part <= s[i..]
  }

  lemma {:induction false} ContainsMiddle(a: string, b: string, c: string)
    ensures Contains(a + b + c, b)
  {
    assert (a + b + c)[|a|..] == b + c;
    assert b <= b + c;
  }

  lemma {:induction false} ContainsRight(a: string, b: string, part: string)
    requires Contains(b, part)
    ensures Contains(a + b, part)
  {
    var i :| 0 <= i <= |b| && part <= b[i..];
    assert (a + b)[|a| + i..] == b[i..];
  }

  /** The message names the missing label. */
  lemma {:induction false} MessageNamesLabel(m: Missing)
    ensures Contains(m.Message(), m.absent.name)
  {
    var n := m.absent.name;
    if m.absent.group.None? {
      ContainsMiddle("'", n, "'" + MissingSuffix);
      assert m.Message() == "'" + n + ("'" + MissingSuffix);
    } else {
      var key := GroupKey(m.absent.group.value);
      ContainsMiddle("'", n, "' " + key + MissingSuffix);
      assert m.Message() == "'" + n + ("' " + key + MissingSuffix);
    }
  }

  /** The message says the label is missing. */
  lemma {:induction false} MessageSaysMissing(m: Missing)
    ensures Contains(m.Message(), "missing")
  {
    ContainsMiddle(" is ", "missing", " from the given samples");
    var lead := if m.absent.group.None? then "'" + m.absent.name + "'"
                else "'" + m.absent.name + "' " + GroupKey(m.absent.group.value);
    assert m.Message() == lead + MissingSuffix;
    ContainsRight(lead, MissingSuffix, "missing");
  }

  /** The position of the first label of ls that the header lacks; |ls| when there is none. */
  function MissingAt(ls: seq<Label>, header: seq<string>): (k: nat)
    ensures k <= |ls|
    ensures forall j | 0 <= j < k :: ls[j].name in header
    ensures k < |ls| ==> ls[k].name !in header
  {
    if ls == [] then 0
    else if ls[0].name !in header then 0
    else 1 + MissingAt(ls[1..], header)
  }

  /** The first position of x in the header (numpy's where(...)[0][0], list.index). */
  function FirstIndex(header: seq<string>, x: string): (k: nat)
    requires x in header
    ensures k < |header| && header[k] == x && x !in header[..k]
  {
    if header[0] == x then 0
    else
      var k := 1 + FirstIndex(header[1..], x);
      assert header[..k] == [header[0]] + header[1..][..k - 1];
      k
  }

  predicate AllPresent(ls: seq<Label>, header: seq<string>)
  {
    forall k | 0 <= k < |ls| :: ls[k].name in header
  }

  function NameSet(ls: seq<Label>): set<string>
  {
    set k | 0 <= k < |ls| :: ls[k].name
  }

  /**
   * The index map for labels all present in the header: exactly their names,
   * each mapped to the first header position holding it.
   */
  function Positions(ls: seq<Label>, header: seq<string>): (m: map<string, nat>)
    requires AllPresent(ls, header)
    ensures m.Keys == NameSet(ls)
    ensures forall x | x in m :: m[x] < |header| && header[m[x]] == x && x !in header[..m[x]]
  {
    map x | x in NameSet(ls) :: FirstIndex(header, x)
  }

  lemma {:induction false} PositionsSnoc(ls: seq<Label>, l: Label, header: seq<string>)
    requires AllPresent(ls, header) && l.name in header
    ensures AllPresent(ls + [l], header)
    ensures Positions(ls + [l], header) == Positions(ls, header)[l.name := FirstIndex(header, l.name)]
  {
    var ls' := ls + [l];
    assert NameSet(ls') == NameSet(ls) + {l.name} by {
      forall x | x in NameSet(ls') ensures x in NameSet(ls) + {l.name} {
        var k :| 0 <= k < |ls'| && ls'[k].name == x;
        if k < |ls| { assert ls[k] == ls'[k]; }
      }
      forall x | x in NameSet(ls) ensures x in NameSet(ls') {
        var k :| 0 <= k < |ls| && ls[k].name == x;
        assert ls'[k] == ls[k];
      }
      assert ls'[|ls|] == l;
    }
  }

  lemma {:induction false} MissingAtAppend(a: seq<Label>, b: seq<Label>, header: seq<string>)
    ensures MissingAt(a + b, header) ==
      if MissingAt(a, header) < |a| then MissingAt(a, header) else |a| + MissingAt(b, header)
  {
    if a != [] {
      assert (a + b)[1..] == a[1..] + b;
      if a[0].name in header {
        MissingAtAppend(a[1..], b, header);
      }
    } else {
      assert a + b == b;
    }
  }

  lemma {:induction false} RequiredAppend(a: seq<BlockLevel>, b: seq<BlockLevel>)
    ensures Required(a + b) == Required(a) + Required(b)
  {
    if a == [] {
      assert a + b == b;
    } else {
      assert (a + b)[1..] == a[1..] + b;
      RequiredAppend(a[1..], b);
    }
  }

  lemma {:induction false} RequiredSnoc(bs: seq<BlockLevel>, i: nat)
    requires i < |bs|
    ensures Required(bs[..i + 1]) == Required(bs[..i]) + LevelRequired(bs[i])
  {
    assert bs[..i + 1] == bs[..i] + [bs[i]];
    RequiredAppend(bs[..i], [bs[i]]);
  }

  /**
   * check_np_array: the index map of the header, or the first label (in
   * block order, then contexts, inputs, groundTruth, others) it lacks.
   */
  method BuildIndexMap(bs: seq<BlockLevel>, header: seq<string>) returns (r: Result<map<string, nat>, Missing>)
    ensures r.Err? <==> MissingAt(Required(bs), header) < |Required(bs)|
    ensures r.Err? ==> r.error == Missing(Required(bs)[MissingAt(Required(bs), header)])
    ensures r.Ok? ==> AllPresent(Required(bs), header) && r.value == Positions(Required(bs), header)
  {
    var m: map<string, nat> := map[];
    ghost var done: seq<Label> := [];
    var i := 0;
    while i < |bs|
      invariant 0 <= i <= |bs|
      invariant done == Required(bs[..i])
      invariant AllPresent(done, header)
      invariant m == Positions(done, header)
    {
      var labels := LevelRequired(bs[i]);
      var j := 0;
      while j < |labels|
        invariant 0 <= j <= |labels|
        invariant forall t | 0 <= t < j :: labels[t].name in header
        invariant done == Required(bs[..i]) + labels[..j]
        invariant AllPresent(done, header)
        invariant m == Positions(done, header)
      {
        if labels[j].name !in header {
          FirstMissingIs(bs, i, j, header);
          return Err(Missing(labels[j]));
        }
        PositionsSnoc(done, labels[j], header);
        m := m[labels[j].name := FirstIndex(header, labels[j].name)];
        done := done + [labels[j]];
        assert labels[..j + 1] == labels[..j] + [labels[j]];
        j := j + 1;
      }
      assert labels[..j] == labels;
      RequiredSnoc(bs, i);
      i := i + 1;
    }
    assert bs[..i] == bs;
    AllPresentMissingAt(done, header);
    return Ok(m);
  }

  lemma {:induction false} AllPresentMissingAt(ls: seq<Label>, header: seq<string>)
    requires AllPresent(ls, header)
    ensures MissingAt(ls, header) == |ls|
  {
  }

  /** The label found missing inside level i is the first missing one of the whole structure. */
  lemma {:induction false} FirstMissingIs(bs: seq<BlockLevel>, i: nat, j: nat, header: seq<string>)
    requires i < |bs| && j < |LevelRequired(bs[i])|
    requires AllPresent(Required(bs[..i]), header)
    requires forall t | 0 <= t < j :: LevelRequired(bs[i])[t].name in header
    requires LevelRequired(bs[i])[j].name !in header
    ensures MissingAt(Required(bs), header) < |Required(bs)|
    ensures Required(bs)[MissingAt(Required(bs), header)] == LevelRequired(bs[i])[j]
  {
    var pre, here, post := Required(bs[..i]), LevelRequired(bs[i]), Required(bs[i + 1..]);
    assert Required(bs) == pre + (here + post) by {
      assert bs == bs[..i] + ([bs[i]] + bs[i + 1..]);
      RequiredAppend(bs[..i], [bs[i]] + bs[i + 1..]);
      assert ([bs[i]] + bs[i + 1..])[1..] == bs[i + 1..];
    }
    AllPresentMissingAt(pre, header);
    MissingAtAppend(pre, here + post, header);
    MissingAtPrefix(here, j, header);
    MissingAtAppend(here, post, header);
    assert (pre + (here + post))[|pre| + j] == here[j];
  }

  lemma {:induction false} MissingAtPrefix(ls: seq<Label>, j: nat, header: seq<string>)
    requires j < |ls|
    requires forall t | 0 <= t < j :: ls[t].name in header
    requires ls[j].name !in header
    ensures MissingAt(ls, header) == j
  {
    if j > 0 {
      MissingAtPrefix(ls[1..], j - 1, header);
    }
  }

  // Reading rows through an index map.

  /** The name and every declared column of b map to a position below width. */
  predicate LevelReadable(b: BlockLevel, idx: map<string, nat>, width: nat)
  {
    b.name in idx && idx[b.name] < width &&
    forall g, k | g in b.groups && 0 <= k < |b.groups[g]| ::
      b.groups[g][k].name in idx && idx[b.groups[g][k].name] < width
  }

  /** Every label of every level can be read, through idx, from a row of the given width. */
  predicate Readable(bs: seq<BlockLevel>, idx: map<string, nat>, width: nat)
  {
    forall level | 0 <= level < |bs| :: LevelReadable(bs[level], idx, width)
  }

  lemma {:induction false} GroupLabelsHold(b: BlockLevel, gs: seq<Group>, g: Group, k: nat)
    requires g in gs && g in b.groups && k < |b.groups[g]|
    ensures Label(b.groups[g][k].name, Some(g)) in GroupLabels(b, gs)
  {
    var cs := Declared(b, gs[0]);
    var here := seq(|cs|, t requires 0 <= t < |cs| => Label(cs[t].name, Some(gs[0])));
    assert GroupLabels(b, gs) == here + GroupLabels(b, gs[1..]);
    if gs[0] == g {
      assert here[k] == Label(b.groups[g][k].name, Some(g));
    } else {
      GroupLabelsHold(b, gs[1..], g, k);
    }
  }

  lemma {:induction false} LevelRequiredIn(bs: seq<BlockLevel>, level: nat, l: Label)
    requires level < |bs| && l in LevelRequired(bs[level])
    ensures l in Required(bs)
  {
    if level > 0 {
      LevelRequiredIn(bs[1..], level - 1, l);
    }
  }

  lemma {:induction false} PositionOf(ls: seq<Label>, header: seq<string>, l: Label)
    requires AllPresent(ls, header) && l in ls
    ensures l.name in Positions(ls, header) && Positions(ls, header)[l.name] < |header|
  {
    var t :| 0 <= t < |ls| && ls[t] == l;
    assert l.name in NameSet(ls);
  }

  lemma {:induction false} LevelPositions(bs: seq<BlockLevel>, header: seq<string>, level: nat)
    requires AllPresent(Required(bs), header) && level < |bs|
    ensures LevelReadable(bs[level], Positions(Required(bs), header), |header|)
  {
    var b := bs[level];
    var ls := Required(bs);
    LevelRequiredIn(bs, level, Label(b.name, None));
    PositionOf(ls, header, Label(b.name, None));
    forall g, k | g in b.groups && 0 <= k < |b.groups[g]|
      ensures b.groups[g][k].name in Positions(ls, header)
      ensures Positions(ls, header)[b.groups[g][k].name] < |header|
    {
      assert g == Groups[0] || g == Groups[1] || g == Groups[2] || g == Groups[3];
      GroupLabelsHold(b, Groups, g, k);
      LevelRequiredIn(bs, level, Label(b.groups[g][k].name, Some(g)));
      PositionOf(ls, header, Label(b.groups[g][k].name, Some(g)));
    }
  }

  /** A header that holds every required label gives an index map every full row can be read through. */
  lemma {:induction false} PositionsReadable(bs: seq<BlockLevel>, header: seq<string>)
    requires AllPresent(Required(bs), header)
    ensures Readable(bs, Positions(Required(bs), header), |header|)
  {
    forall level | 0 <= level < |bs| ensures LevelReadable(bs[level], Positions(Required(bs), header), |header|) {
      LevelPositions(bs, header, level);
    }
  }
}
