/** The parts of the host (mdBook) that the preprocessor works on: the book tree, the
    preprocessor context, and addresses into the tree. mdBook itself is not part of this model;
    these are its data as the preprocessor sees them. */
module MdBook {
  import opened Wrappers
  import opened Paths
  import opened Config

  /** `mdbook::book::Chapter`. */
  datatype Chapter = Chapter(
    name: string,
    content: string,
    number: Option<seq<nat>>,
    subItems: seq<BookItem>,
    path: Option<Path>,
    sourcePath: Option<Path>,
    parentNames: seq<string>)

  /** `mdbook::BookItem`. */
  datatype BookItem = ChapterItem(chapter: Chapter) | Separator | PartTitle(title: string)

  /** `mdbook::book::Book`. */
  datatype Book = Book(sections: seq<BookItem>)

  /** The parts of `mdbook::Config` that are read: `book.src`, `build.build_dir`, and the tables
      of the configuration file by their dotted key. */
  datatype BookConfig = BookConfig(src: Path, buildDir: Path, tables: map<string, RawSection>)

  /** `mdbook::preprocess::PreprocessorContext`. */
  datatype PreprocessorContext = PreprocessorContext(root: Path, config: BookConfig)

  /** `Config::get_deserialized_opt`: no table under the key is `Ok(None)`, a table that does not
      deserialise is an error. */
  function GetDeserializedOpt(config: BookConfig, key: string): (r: Result<Option<MiniJinjaConfig>, ConfigError>)
    ensures key !in config.tables <==> r == Ok(None)
    ensures key in config.tables ==>
      (r.Ok? <==> Deserialize(config.tables[key]).Ok?) &&
      (r.Ok? ==> r.value == Some(Deserialize(config.tables[key]).value))
  {
    if key !in config.tables then Ok(None)
    else
      match Deserialize(config.tables[key])
      case Ok(c) => Ok(Some(c))
      case Err(e) => Err(e)
  }

  // ---------------------------------------------------------------------------------------
  // Addresses: the i-th item of a list, then an index into that chapter's sub-items, and so on.

  type Address = seq<nat>

  predicate ValidAddr(items: seq<BookItem>, a: Address)
    decreases |a|
  {
    && |a| > 0
    && a[0] < |items|
    && (|a| == 1 || (items[a[0]].ChapterItem? && ValidAddr(items[a[0]].chapter.subItems, a[1..])))
  }

  function At(items: seq<BookItem>, a: Address): BookItem
    requires ValidAddr(items, a)
    decreases |a|
  {
    if |a| == 1 then items[a[0]] else At(items[a[0]].chapter.subItems, a[1..])
  }

  /** The text fields of one item, the only fields the preprocessor writes. */
  datatype Texts = ChapterTexts(name: string, content: string) | NoTexts | TitleText(title: string)

  function TextsOf(item: BookItem): Texts {
    match item
    case ChapterItem(c) => ChapterTexts(c.name, c.content)
    case Separator => NoTexts
    case PartTitle(t) => TitleText(t)
  }

  /** Writes texts of the matching kind into an item; anything else is left as it is. */
  function WithTexts(item: BookItem, t: Texts): (r: BookItem)
    ensures item.ChapterItem? && t.ChapterTexts? ==> TextsOf(r) == t
    ensures item.PartTitle? && t.TitleText? ==> TextsOf(r) == t
  {
    match (item, t)
    case (ChapterItem(c), ChapterTexts(n, body)) => ChapterItem(c.(name := n, content := body))
    case (PartTitle(_), TitleText(s)) => PartTitle(s)
    case _ => item
  }

  /** Writes texts into the item at an address, leaving every other field of the tree alone. */
  function SetTexts(items: seq<BookItem>, a: Address, t: Texts): (r: seq<BookItem>)
    requires ValidAddr(items, a)
    ensures |r| == |items|
    decreases |a|
  {
    var i := a[0];
    if |a| == 1 then items[i := WithTexts(items[i], t)]
    else
      var c := items[i].chapter;
      items[i := ChapterItem(c.(subItems := SetTexts(c.subItems, a[1..], t)))]
  }

  /** The tree with every text field blanked: what must not change while texts are rewritten
      (item kinds, paths, numbers, parent names, sub-item structure and order). */
  function EraseItem(item: BookItem): BookItem
    decreases item
  {
    match item
    case ChapterItem(c) => ChapterItem(c.(name := "", content := "", subItems := Erase(c.subItems)))
    case Separator => Separator
    case PartTitle(_) => PartTitle("")
  }

  function Erase(items: seq<BookItem>): (r: seq<BookItem>)
    ensures |r| == |items|
    decreases items
  {
    seq(|items|, i requires 0 <= i < |items| => EraseItem(items[i]))
  }

  /** Which addresses exist, and what sits there apart from its texts, is decided by the erased
      tree alone. */
  lemma {:induction false} EraseAt(items: seq<BookItem>, a: Address)
    ensures ValidAddr(Erase(items), a) <==> ValidAddr(items, a)
    ensures ValidAddr(items, a) ==> At(Erase(items), a) == EraseItem(At(items, a))
    decreases |a|
  {
    if |a| > 1 && a[0] < |items| {
      var i := a[0];
      if items[i].ChapterItem? {
        EraseAt(items[i].chapter.subItems, a[1..]);
      }
    }
  }

  /** Two trees with the same erasure have the same addresses, and the same fields apart from texts
      at each of them. */
  lemma SameSkeletonAt(x: seq<BookItem>, y: seq<BookItem>, a: Address)
    requires Erase(x) == Erase(y)
    ensures ValidAddr(x, a) <==> ValidAddr(y, a)
    ensures ValidAddr(x, a) ==> EraseItem(At(x, a)) == EraseItem(At(y, a))
  {
    EraseAt(x, a);
    EraseAt(y, a);
  }

  lemma WithTextsErase(item: BookItem, t: Texts)
    ensures EraseItem(WithTexts(item, t)) == EraseItem(item)
  {
  }

  /** Writing texts leaves the erased tree unchanged. */
  lemma {:induction false} SetTextsErase(items: seq<BookItem>, a: Address, t: Texts)
    requires ValidAddr(items, a)
    ensures Erase(SetTexts(items, a, t)) == Erase(items)
    decreases |a|
  {
    var i := a[0];
    var r := SetTexts(items, a, t);
    if |a| == 1 {
      WithTextsErase(items[i], t);
    } else {
      SetTextsErase(items[i].chapter.subItems, a[1..], t);
    }
    assert forall k | 0 <= k < |items| :: EraseItem(r[k]) == EraseItem(items[k]);
  }

  /** Writing texts at `a` is seen at `a` and nowhere else. */
  lemma {:induction false} SetTextsAt(items: seq<BookItem>, a: Address, t: Texts, b: Address)
    requires ValidAddr(items, a) && ValidAddr(items, b)
    ensures ValidAddr(SetTexts(items, a, t), b)
    ensures TextsOf(At(SetTexts(items, a, t), b)) ==
      if a == b then TextsOf(WithTexts(At(items, a), t)) else TextsOf(At(items, b))
    decreases |a|
  {
    var r := SetTexts(items, a, t);
    SetTextsErase(items, a, t);
    SameSkeletonAt(r, items, b);
    if a[0] == b[0] && |a| > 1 && |b| > 1 {
      var i := a[0];
      SetTextsAt(items[i].chapter.subItems, a[1..], t, b[1..]);
      assert a == b <==> a[1..] == b[1..] by {
        assert a == [a[0]] + a[1..];
        assert b == [b[0]] + b[1..];
      }
    }
  }

  // ---------------------------------------------------------------------------------------
  // Visit orders

  /** `order` visits every item of the tree exactly once. */
  ghost predicate IsVisitOrder(items: seq<BookItem>, order: seq<Address>) {
    && (forall j :: 0 <= j < |order| ==> ValidAddr(items, order[j]))
    && (forall a :: ValidAddr(items, a) ==> a in order)
    && (forall j, k :: 0 <= j < k < |order| ==> order[j] != order[k])
  }

  function Prefixed(i: nat, addrs: seq<Address>): (r: seq<Address>)
    ensures |r| == |addrs|
    ensures forall k :: 0 <= k < |r| ==> r[k] == [i] + addrs[k]
  {
    seq(|addrs|, k requires 0 <= k < |addrs| => [i] + addrs[k])
  }

  function SubItemsOf(item: BookItem): seq<BookItem> {
    if item.ChapterItem? then item.chapter.subItems else []
  }

  /** The number of items in a tree, a termination measure for walks over it. */
  function ItemSize(item: BookItem): (r: nat)
    ensures r >= 1
    ensures item.ChapterItem? ==> r == 1 + ItemsSize(item.chapter.subItems)
    decreases item
  {
    match item
    case ChapterItem(c) => 1 + ItemsSize(c.subItems)
    case _ => 1
  }

  function ItemsSize(items: seq<BookItem>): nat
    decreases items
  {
    if |items| == 0 then 0 else ItemsSize(items[..|items| - 1]) + ItemSize(items[|items| - 1])
  }

  lemma {:induction false} ItemSizeBound(items: seq<BookItem>, i: nat)
    requires i < |items|
    ensures ItemSize(items[i]) <= ItemsSize(items)
    decreases |items|
  {
    var n := |items| - 1;
    if i < n {
      ItemSizeBound(items[..n], i);
      assert items[..n][i] == items[i];
    }
  }

  /** The order of mdBook's `for_each_mut`: left to right, the sub-items of a chapter before the
      chapter itself. */
  function PostOrder(items: seq<BookItem>): (r: seq<Address>)
    ensures |items| > 0 ==> |r| > 0 && r[|r| - 1] == [|items| - 1]
    decreases ItemsSize(items)
  {
    if |items| == 0 then []
    else
      var n := |items| - 1;
      PostOrder(items[..n]) + Prefixed(n, PostOrder(SubItemsOf(items[n]))) + [[n]]
  }

  lemma PrefixAddr(items: seq<BookItem>, n: nat, a: Address)
    requires n <= |items| && |a| > 0 && a[0] < n
    ensures ValidAddr(items[..n], a) <==> ValidAddr(items, a)
  {
  }

  lemma ConsAddr(items: seq<BookItem>, n: nat, rest: Address)
    requires n < |items|
    ensures ValidAddr(items, [n] + rest) <==>
      (rest == [] || ValidAddr(SubItemsOf(items[n]), rest))
  {
  }

  /** The post-order lists one address per item of the tree. */
  lemma {:induction false} PostOrderLength(items: seq<BookItem>)
    ensures |PostOrder(items)| == ItemsSize(items)
    decreases ItemsSize(items)
  {
    if |items| > 0 {
      var n := |items| - 1;
      ItemSizeBound(items, n);
      PostOrderLength(items[..n]);
      PostOrderLength(SubItemsOf(items[n]));
    }
  }

  /** Every address the post-order lists exists, and starts at a top-level item. */
  lemma {:induction false} PostOrderValid(items: seq<BookItem>)
    ensures forall j :: 0 <= j < |PostOrder(items)| ==> ValidAddr(items, PostOrder(items)[j])
    ensures forall j :: 0 <= j < |PostOrder(items)| ==>
      |PostOrder(items)[j]| > 0 && PostOrder(items)[j][0] < |items|
    decreases ItemsSize(items)
  {
    if |items| > 0 {
      var n := |items| - 1;
      var front := PostOrder(items[..n]);
      var subs := PostOrder(SubItemsOf(items[n]));
      var order := front + Prefixed(n, subs) + [[n]];
      PostOrderValid(items[..n]);
      PostOrderValid(SubItemsOf(items[n]));
      forall j | 0 <= j < |order|
        ensures ValidAddr(items, order[j]) && |order[j]| > 0 && order[j][0] <= n
      {
        if j < |front| {
          assert order[j] == front[j];
          PrefixAddr(items, n, front[j]);
        } else if j < |front| + |subs| {
          var a := subs[j - |front|];
          assert order[j] == [n] + a;
          ConsAddr(items, n, a);
          assert ([n] + a)[1..] == a;
        } else {
          assert order[j] == [n];
        }
      }
    }
  }

  /** The `j`-th entry of the post-order of a non-empty tree: an entry of the front's post-order,
      an entry of the last item's sub-items' post-order under that item, or the last item. */
  lemma PostOrderAt(items: seq<BookItem>, j: nat)
    requires |items| > 0 && j < |PostOrder(items)|
    ensures
      var n := |items| - 1;
      var front, subs := PostOrder(items[..n]), PostOrder(SubItemsOf(items[n]));
      && |PostOrder(items)| == |front| + |subs| + 1
      && (j < |front| ==> PostOrder(items)[j] == front[j])
      && (|front| <= j < |front| + |subs| ==> PostOrder(items)[j] == [n] + subs[j - |front|])
      && (j == |front| + |subs| ==> PostOrder(items)[j] == [n])
  {
  }

  /** No address is listed twice by the post-order. */
  lemma {:induction false} PostOrderDistinct(items: seq<BookItem>)
    ensures forall j, k :: 0 <= j < k < |PostOrder(items)| ==> PostOrder(items)[j] != PostOrder(items)[k]
    decreases ItemsSize(items)
  {
    if |items| > 0 {
      var n := |items| - 1;
      var order := PostOrder(items);
      var front, subs := PostOrder(items[..n]), PostOrder(SubItemsOf(items[n]));
      PostOrderDistinct(items[..n]);
      PostOrderDistinct(SubItemsOf(items[n]));
      forall j, k | 0 <= j < k < |order|
        ensures order[j] != order[k]
      {
        PostOrderAt(items, j);
        PostOrderAt(items, k);
        if k < |front| {
        } else if j < |front| {
          PostOrderValid(items[..n]);
          assert order[j][0] < n;
          assert order[k][0] == n;
        } else if k < |front| + |subs| {
          var x, y := subs[j - |front|], subs[k - |front|];
          assert x != y;
          assert ([n] + x)[1..] == x && ([n] + y)[1..] == y;
        } else {
          PostOrderValid(SubItemsOf(items[n]));
          assert |subs[j - |front|]| > 0;
        }
      }
    }
  }

  /** Every address the post-order lists exists, and they are pairwise distinct. */
  lemma PostOrderValidDistinct(items: seq<BookItem>)
    ensures forall j :: 0 <= j < |PostOrder(items)| ==> ValidAddr(items, PostOrder(items)[j])
    ensures forall j, k :: 0 <= j < k < |PostOrder(items)| ==> PostOrder(items)[j] != PostOrder(items)[k]
  {
    PostOrderValid(items);
    PostOrderDistinct(items);
  }

  /** Every address of the tree is listed by the post-order. */
  lemma {:induction false} PostOrderCovers(items: seq<BookItem>, a: Address)
    requires ValidAddr(items, a)
    ensures a in PostOrder(items)
    decreases ItemsSize(items)
  {
    var n := |items| - 1;
    var front := PostOrder(items[..n]);
    var subs := PostOrder(SubItemsOf(items[n]));
    assert PostOrder(items) == front + Prefixed(n, subs) + [[n]];
    if a[0] < n {
      PrefixAddr(items, n, a);
      PostOrderCovers(items[..n], a);
      var k :| 0 <= k < |front| && front[k] == a;
      assert PostOrder(items)[k] == a;
    } else if |a| == 1 {
      assert a == [n];
    } else {
      assert a == [n] + a[1..];
      ConsAddr(items, n, a[1..]);
      PostOrderCovers(SubItemsOf(items[n]), a[1..]);
      var k :| 0 <= k < |subs| && subs[k] == a[1..];
      assert Prefixed(n, subs)[k] == a;
      assert PostOrder(items)[|front| + k] == a;
    }
  }

  /** The post-order visits every item of the tree exactly once. */
  lemma PostOrderIsVisitOrder(items: seq<BookItem>)
    ensures IsVisitOrder(items, PostOrder(items))
  {
    PostOrderValidDistinct(items);
    forall a | ValidAddr(items, a) ensures a in PostOrder(items) {
      PostOrderCovers(items, a);
    }
  }

  /** A tree is determined by its erasure together with the texts at every address. */
  lemma {:induction false} DeterminedByTexts(x: seq<BookItem>, y: seq<BookItem>)
    requires Erase(x) == Erase(y)
    requires forall a :: ValidAddr(x, a) ==> ValidAddr(y, a) && TextsOf(At(x, a)) == TextsOf(At(y, a))
    ensures x == y
    decreases ItemsSize(x)
  {
    forall i | 0 <= i < |x| ensures x[i] == y[i] {
      ItemSizeBound(x, i);
      assert EraseItem(x[i]) == Erase(x)[i] == Erase(y)[i] == EraseItem(y[i]);
      assert ValidAddr(x, [i]);
      assert TextsOf(x[i]) == TextsOf(y[i]);
      if x[i].ChapterItem? {
        var xs, ys := x[i].chapter.subItems, y[i].chapter.subItems;
        forall b | ValidAddr(xs, b) ensures ValidAddr(ys, b) && TextsOf(At(xs, b)) == TextsOf(At(ys, b)) {
          var a := [i] + b;
          assert a[1..] == b;
          assert ValidAddr(x, a);
        }
        DeterminedByTexts(xs, ys);
      }
    }
  }
}
