/**
 * Rewrites of a chat message's element list (ChatMsgElemVec). Every
 * rewrite in the relay walks the elements in order, replaces each image
 * element by a freshly built image element carrying a new name, and keeps
 * every other element as it was.
 */
module ChatContent {
  import opened Common
  import opened Messages

  predicate IsImage(e: ChatElem) { e.kind == ImageElem }

  predicate IsFile(e: ChatElem) { e.kind == FileElem }

  /** A freshly built image element (a default ChatMsgElem given a kind and a name). */
  function FreshImage(name: string): ChatElem
  {
    ChatElem(ImageElem, name, "")
  }

  /** Number of image elements. */
  function ImageCount(es: seq<ChatElem>): (n: nat)
    ensures n <= |es|
  {
    if es == [] then 0 else (if IsImage(es[0]) then 1 else 0) + ImageCount(es[1..])
  }

  /** Number of image elements strictly before position i. */
  function ImagesBefore(es: seq<ChatElem>, i: nat): nat
    requires i <= |es|
  {
    ImageCount(es[..i])
  }

  predicate HasImage(es: seq<ChatElem>) { exists i :: 0 <= i < |es| && IsImage(es[i]) }

  predicate HasFile(es: seq<ChatElem>) { exists i :: 0 <= i < |es| && IsFile(es[i]) }

  /**
   * Every image element gets the name `rename` gives its old name; every
   * other element is kept. (The rewrites at 1916-1948, 2402-2418,
   * 2636-2647 and 2692-2703 of CMediumServer.cpp are all of this form.)
   */
  function MapImages(es: seq<ChatElem>, rename: string -> string): (r: seq<ChatElem>)
    ensures |r| == |es|
  {
    if es == [] then []
    else [if IsImage(es[0]) then FreshImage(rename(es[0].imageName)) else es[0]] + MapImages(es[1..], rename)
  }

  /** The element-wise meaning of MapImages. */
  lemma {:induction false} MapImagesAt(es: seq<ChatElem>, rename: string -> string, i: nat)
    requires i < |es|
    ensures MapImages(es, rename)[i] ==
            (if IsImage(es[i]) then FreshImage(rename(es[i].imageName)) else es[i])
  {
    if i > 0 {
      MapImagesAt(es[1..], rename, i - 1);
    }
  }

  /** All image elements renamed to one file name (HandleUserRecvImageByHash). */
  function RenameImages(es: seq<ChatElem>, name: string): seq<ChatElem>
  {
    MapImages(es, _ => name)
  }

  /** Image names prefixed with a directory (HSB_FriendChatSendTxtRsp). */
  function PrefixImages(es: seq<ChatElem>, dir: string): seq<ChatElem>
  {
    MapImages(es, n => dir + n)
  }

  /**
   * The k-th image element (counting from 0, in order) gets names[k]; other
   * elements are kept. This is the new element list built while the images
   * of an outgoing message are offered one by one.
   */
  function ReplaceImages(es: seq<ChatElem>, names: seq<string>): (r: seq<ChatElem>)
    requires |names| == ImageCount(es)
    ensures |r| == |es|
  {
    if es == [] then []
    else if IsImage(es[0]) then [FreshImage(names[0])] + ReplaceImages(es[1..], names[1..])
    else [es[0]] + ReplaceImages(es[1..], names)
  }

  lemma {:induction false} ImageCountAppend(a: seq<ChatElem>, b: seq<ChatElem>)
    ensures ImageCount(a + b) == ImageCount(a) + ImageCount(b)
  {
    if a == [] {
      assert a + b == b;
    } else {
      assert (a + b)[0] == a[0];
      assert (a + b)[1..] == a[1..] + b;
      ImageCountAppend(a[1..], b);
    }
  }

  /** Extending a prefix by one element adds one image exactly when that element is one. */
  lemma ImageCountSnoc(es: seq<ChatElem>, i: nat)
    requires i < |es|
    ensures ImageCount(es[..i + 1]) == ImageCount(es[..i]) + (if IsImage(es[i]) then 1 else 0)
  {
    assert es[..i + 1] == es[..i] + [es[i]];
    ImageCountAppend(es[..i], [es[i]]);
    assert [es[i]][1..] == [];
  }

  /** The element-wise meaning of ReplaceImages. */
  lemma {:induction false} ReplaceImagesAt(es: seq<ChatElem>, names: seq<string>, i: nat)
    requires |names| == ImageCount(es) && i < |es|
    ensures ImagesBefore(es, i) < |names| || !IsImage(es[i])
    ensures ReplaceImages(es, names)[i] ==
            (if IsImage(es[i]) then FreshImage(names[ImagesBefore(es, i)]) else es[i])
  {
    ImageCountSnoc(es, i);
    ImageCountAppend(es[..i + 1], es[i + 1..]);
    assert es[..i + 1] + es[i + 1..] == es;
    if i > 0 {
      var tail := if IsImage(es[0]) then names[1..] else names;
      ReplaceImagesAt(es[1..], tail, i - 1);
      assert es[..i] == [es[0]] + es[1..][..i - 1];
      ImageCountAppend([es[0]], es[1..][..i - 1]);
      assert [es[0]][1..] == [];
    }
  }

  /**
   * Building the new element list one element at a time (the loop at
   * 1916-1948): after the prefix es[..i] has been processed, the list
   * built so far is ReplaceImages of that prefix with the names issued so
   * far.
   */
  lemma ReplaceImagesSnoc(es: seq<ChatElem>, names: seq<string>, i: nat, next: string)
    requires i < |es| && |names| == ImageCount(es[..i])
    ensures ImageCount(es[..i + 1]) == |names| + (if IsImage(es[i]) then 1 else 0)
    ensures IsImage(es[i]) ==>
              ReplaceImages(es[..i + 1], names + [next]) == ReplaceImages(es[..i], names) + [FreshImage(next)]
    ensures !IsImage(es[i]) ==>
              ReplaceImages(es[..i + 1], names) == ReplaceImages(es[..i], names) + [es[i]]
  {
    ImageCountSnoc(es, i);
    var n := if IsImage(es[i]) then names + [next] else names;
    var r := ReplaceImages(es[..i + 1], n);
    var want := ReplaceImages(es[..i], names) + [if IsImage(es[i]) then FreshImage(next) else es[i]];
    forall j | 0 <= j < |r|
      ensures r[j] == want[j]
    {
      ReplaceImagesAt(es[..i + 1], n, j);
      if j < i {
        ReplaceImagesAt(es[..i], names, j);
        assert es[..i + 1][..j] == es[..i][..j];
      } else {
        assert es[..i + 1][..j] == es[..i];
      }
    }
  }

  /** Whether a prefix has an image (or a file) grows one element at a time. */
  lemma HasSnoc(es: seq<ChatElem>, i: nat)
    requires i < |es|
    ensures HasImage(es[..i + 1]) <==> HasImage(es[..i]) || IsImage(es[i])
    ensures HasFile(es[..i + 1]) <==> HasFile(es[..i]) || IsFile(es[i])
  {
    assert es[..i + 1][i] == es[i];
    forall j | 0 <= j < i
      ensures es[..i + 1][j] == es[..i][j]
    {
    }
  }

  /**
   * The loop of HSB_FriendChatSendTxtRsp (2402-2418): every image element
   * is rebuilt with its name prefixed by `dir`, every other element kept.
   */
  method PrefixImageNames(es: seq<ChatElem>, dir: string) returns (r: seq<ChatElem>)
    ensures r == PrefixImages(es, dir)
  {
    r := [];
    var i := 0;
    while i < |es|
      invariant i <= |es|
      invariant r == PrefixImages(es, dir)[..i]
    {
      MapImagesAt(es, n => dir + n, i);
      if IsImage(es[i]) {
        r := r + [FreshImage(dir + es[i].imageName)];
      } else {
        r := r + [es[i]];
      }
      i := i + 1;
    }
  }

  /** A rewrite keeps every non-image element in place and makes no new images. */
  lemma MapImagesKeepsShape(es: seq<ChatElem>, rename: string -> string)
    ensures ImageCount(MapImages(es, rename)) == ImageCount(es)
    ensures HasImage(MapImages(es, rename)) <==> HasImage(es)
  {
    var r := MapImages(es, rename);
    forall i | 0 <= i < |es| ensures IsImage(r[i]) <==> IsImage(es[i]) {
      MapImagesAt(es, rename, i);
    }
    ImageCountSame(es, r);
  }

  lemma {:induction false} ImageCountSame(a: seq<ChatElem>, b: seq<ChatElem>)
    requires |a| == |b|
    requires forall i :: 0 <= i < |a| ==> (IsImage(a[i]) <==> IsImage(b[i]))
    ensures ImageCount(a) == ImageCount(b)
  {
    if a != [] {
      ImageCountSame(a[1..], b[1..]);
    }
  }

  /** Renaming every image to one name a second time changes nothing. */
  lemma RenameImagesIdempotent(es: seq<ChatElem>, name: string)
    ensures RenameImages(RenameImages(es, name), name) == RenameImages(es, name)
  {
    var once := RenameImages(es, name);
    var twice := RenameImages(once, name);
    forall i | 0 <= i < |es| ensures twice[i] == once[i] {
      MapImagesAt(es, _ => name, i);
      MapImagesAt(once, _ => name, i);
    }
  }

  /** After prefixing, every image element names a file inside the directory. */
  lemma PrefixImagesInDir(es: seq<ChatElem>, dir: string, i: nat)
    requires i < |es| && IsImage(es[i])
    ensures IsImage(PrefixImages(es, dir)[i])
    ensures PrefixImages(es, dir)[i].imageName == dir + es[i].imageName
  {
    MapImagesAt(es, n => dir + n, i);
  }
}
