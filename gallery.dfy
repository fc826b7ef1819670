/** The gallery page: a fixed list of images, an "All" tab listing every image and
    one tab per category listing the images of that category, each shown as a tile
    whose height follows the image's aspect ratio. */
module Gallery {
  import Seqs

  datatype Category = Space | Events | Food | People

  /** One gallery image. The alt text is not carried: no rule of the page reads it. */
  datatype GalleryImage = GalleryImage(id: string, src: string, category: Category, width: int, height: int)

  /** `galleryImages`: the space, event, food and people images, in that order. */
  function GalleryImages(): seq<GalleryImage> {
    SpaceImages() + EventImages() + FoodImages() + PeopleImages()
  }

  /** The five space images. */
  function SpaceImages(): seq<GalleryImage> {
    [
      GalleryImage("s1", "/gallery/space-1.jpg", Space, 800, 600),
      GalleryImage("s2", "/gallery/space-2.jpg", Space, 600, 800),
      GalleryImage("s3", "/gallery/space-3.jpg", Space, 800, 600),
      GalleryImage("s4", "/gallery/space-4.jpg", Space, 800, 800),
      GalleryImage("s5", "/gallery/space-5.jpg", Space, 800, 600)
    ]
  }

  /** The six event images. */
  function EventImages(): seq<GalleryImage> {
    [
      GalleryImage("e1", "/gallery/event-1.jpg", Events, 800, 600),
      GalleryImage("e2", "/gallery/event-2.jpg", Events, 800, 600),
      GalleryImage("e3", "/gallery/event-3.jpg", Events, 600, 800),
      GalleryImage("e4", "/gallery/event-4.jpg", Events, 800, 600),
      GalleryImage("e5", "/gallery/event-5.jpg", Events, 800, 600),
      GalleryImage("e6", "/gallery/event-6.jpg", Events, 800, 600)
    ]
  }

  /** The five food images. */
  function FoodImages(): seq<GalleryImage> {
    [
      GalleryImage("f1", "/gallery/food-1.jpg", Food, 800, 600),
      GalleryImage("f2", "/gallery/food-2.jpg", Food, 600, 800),
      GalleryImage("f3", "/gallery/food-3.jpg", Food, 800, 600),
      GalleryImage("f4", "/gallery/food-4.jpg", Food, 800, 600),
      GalleryImage("f5", "/gallery/food-5.jpg", Food, 800, 600)
    ]
  }

  /** The four people images. */
  function PeopleImages(): seq<GalleryImage> {
    [
      GalleryImage("p1", "/gallery/people-1.jpg", People, 800, 600),
      GalleryImage("p2", "/gallery/people-2.jpg", People, 800, 600),
      GalleryImage("p3", "/gallery/people-3.jpg", People, 600, 800),
      GalleryImage("p4", "/gallery/people-4.jpg", People, 800, 600)
    ]
  }

  /** The tabs: "all", then one per category in the order space, events, food, people. */
  datatype Tab = All | Only(category: Category)

  function InCategory(c: Category): GalleryImage -> bool {
    (image: GalleryImage) => image.category == c
  }

  /** The images a tab shows: all of them, or `filter(image.category === category)`. */
  function TabImages(images: seq<GalleryImage>, tab: Tab): (r: seq<GalleryImage>)
    ensures tab.All? ==> r == images
    ensures tab.Only? ==> forall i :: 0 <= i < |r| ==> r[i] in images && r[i].category == tab.category
    ensures tab.Only? ==> forall i :: 0 <= i < |images| && images[i].category == tab.category ==> images[i] in r
  {
    match tab
    case All => images
    case Only(c) => Seqs.Filter(InCategory(c), images)
  }

  /** A category tab keeps the images in their original order: the tab of a
      concatenation is the concatenation of the tabs. */
  lemma TabOfConcat(a: seq<GalleryImage>, b: seq<GalleryImage>, tab: Tab)
    ensures TabImages(a + b, tab) == TabImages(a, tab) + TabImages(b, tab)
  {
    if tab.Only? {
      Seqs.FilterAppend(InCategory(tab.category), a, b);
    }
  }

  /** An image shows on exactly one category tab, the one of its own category. */
  lemma ExactlyOneCategoryTab(images: seq<GalleryImage>, i: nat, c: Category)
    requires i < |images|
    ensures images[i] in TabImages(images, Only(c)) <==> c == images[i].category
  {
  }

  /** Removing the first image shortens the tab of its own category by one and
      leaves the other tabs as they are. */
  lemma TabOfCons(images: seq<GalleryImage>, c: Category)
    requires images != []
    ensures |TabImages(images, Only(c))|
      == (if images[0].category == c then 1 else 0) + |TabImages(images[1..], Only(c))|
  {
  }

  /** The four category tabs together show each image once: their lengths add up to
      the length of the "All" tab. */
  lemma {:induction false} CategoryTabsPartition(images: seq<GalleryImage>)
    ensures |TabImages(images, Only(Space))| + |TabImages(images, Only(Events))|
      + |TabImages(images, Only(Food))| + |TabImages(images, Only(People))| == |TabImages(images, All)|
  {
    if images != [] {
      CategoryTabsPartition(images[1..]);
      TabOfCons(images, Space);
      TabOfCons(images, Events);
      TabOfCons(images, Food);
      TabOfCons(images, People);
    }
  }

  /** The tile height in pixels: 400 for a portrait image, 300 otherwise. */
  function TileHeight(image: GalleryImage): (h: int)
    ensures h == 400 <==> image.height > image.width
    ensures h == 300 <==> image.height <= image.width
  {
    if image.height > image.width then 400 else 300
  }

  /** `image.src || "/placeholder.svg"`: an empty src falls back to the placeholder. */
  function TileSrc(image: GalleryImage): (src: string)
    ensures image.src == "" ==> src == "/placeholder.svg"
    ensures image.src != "" ==> src == image.src
    ensures src != ""
  {
    if image.src != "" then image.src else "/placeholder.svg"
  }

  /** One rendered tile, keyed by the image id. */
  datatype Tile = Tile(key: string, src: string, height: int)

  /** The tiles of a tab, one per image it lists and in the same order. */
  function TabTiles(images: seq<GalleryImage>, tab: Tab): (r: seq<Tile>)
    ensures |r| == |TabImages(images, tab)|
    ensures forall i :: 0 <= i < |r| ==>
      var image := TabImages(images, tab)[i];
      r[i] == Tile(image.id, TileSrc(image), TileHeight(image))
  {
    var shown := TabImages(images, tab);
    seq(|shown|, i requires 0 <= i < |shown| => Tile(shown[i].id, TileSrc(shown[i]), TileHeight(shown[i])))
  }

  /** A run of images of one category is all of its own tab and none of the others. */
  lemma TabOfSection(section: seq<GalleryImage>, c: Category, d: Category)
    requires forall i :: 0 <= i < |section| ==> section[i].category == c
    ensures TabImages(section, Only(d)) == if d == c then section else []
  {
    if d == c {
      Seqs.FilterKeepsAll(InCategory(c), section);
    }
  }

  /** Four runs of images, one per category in tab order: each category tab lists
      exactly its own run. */
  lemma {:induction false} TabOfRuns(s: seq<GalleryImage>, e: seq<GalleryImage>, f: seq<GalleryImage>,
                                     p: seq<GalleryImage>, d: Category)
    requires forall i :: 0 <= i < |s| ==> s[i].category == Space
    requires forall i :: 0 <= i < |e| ==> e[i].category == Events
    requires forall i :: 0 <= i < |f| ==> f[i].category == Food
    requires forall i :: 0 <= i < |p| ==> p[i].category == People
    ensures TabImages(s + e + f + p, Only(d)) == match d
      case Space => s
      case Events => e
      case Food => f
      case People => p
  {
    TabOfConcat(s + e + f, p, Only(d));
    TabOfConcat(s + e, f, Only(d));
    TabOfConcat(s, e, Only(d));
    var ts, te, tf, tp := TabImages(s, Only(d)), TabImages(e, Only(d)), TabImages(f, Only(d)), TabImages(p, Only(d));
    assert TabImages(s + e + f + p, Only(d)) == ts + te + tf + tp;
    TabOfSection(s, Space, d);
    TabOfSection(e, Events, d);
    TabOfSection(f, Food, d);
    TabOfSection(p, People, d);
    var run := match d case Space => s case Events => e case Food => f case People => p;
    assert ts + te + tf + tp == run by {
      match d
      case Space => assert ts == s && te == [] && tf == [] && tp == [];
      case Events => assert ts == [] && te == e && tf == [] && tp == [];
      case Food => assert ts == [] && te == [] && tf == f && tp == [];
      case People => assert ts == [] && te == [] && tf == [] && tp == p;
    }
  }

  /** On the page's own images, each category tab lists exactly that category's
      images, in the page's order. */
  lemma GalleryTab(d: Category)
    ensures TabImages(GalleryImages(), Only(d)) == match d
      case Space => SpaceImages()
      case Events => EventImages()
      case Food => FoodImages()
      case People => PeopleImages()
  {
    TabOfRuns(SpaceImages(), EventImages(), FoodImages(), PeopleImages(), d);
  }

  /** The tabs of the page list 20, 5, 6, 5 and 4 images. */
  lemma GalleryTabSizes()
    ensures |TabImages(GalleryImages(), All)| == 20
    ensures |TabImages(GalleryImages(), Only(Space))| == 5
    ensures |TabImages(GalleryImages(), Only(Events))| == 6
    ensures |TabImages(GalleryImages(), Only(Food))| == 5
    ensures |TabImages(GalleryImages(), Only(People))| == 4
  {
    GalleryTab(Space);
    GalleryTab(Events);
    GalleryTab(Food);
    GalleryTab(People);
  }

  /** On the page's own images: every src is non-empty, so no tile shows the
      placeholder; the square s4 and every landscape image get 300px tiles, and
      exactly the portrait images s2, e3, f2 and p3 get 400px tiles. */
  lemma GalleryTiles()
    ensures forall i :: 0 <= i < |GalleryImages()| ==> TileSrc(GalleryImages()[i]) == GalleryImages()[i].src
    ensures GalleryImages()[3].id == "s4" && TileHeight(GalleryImages()[3]) == 300
    ensures forall i :: 0 <= i < |GalleryImages()| ==>
      (TileHeight(GalleryImages()[i]) == 400 <==> i in {1, 7, 12, 18})
  {
  }
}
