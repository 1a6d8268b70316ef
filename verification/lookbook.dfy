/** The lookbook page: the gallery viewer, the edit dialog's gallery preview
    and removal list, and the per-card statistics toggle. */
module LookbookPage {
  import opened Common
  import opened Text
  import opened Gallery
  import Backend

  /** A lookbook as the page receives it from the list endpoint. */
  datatype LookbookItem = LookbookItem(
    id: int,
    name: string,
    description: Option<string>,
    link: Option<string>,
    imageUrl: Option<string>,
    bannerUrl: Option<string>,
    imagesUrl: Option<string>)

  /** The edit dialog's state; files are represented by the names the server
      will store them under. */
  datatype EditData = EditData(
    name: string,
    description: string,
    link: string,
    image: Option<string>,
    banner: Option<string>,
    gallery: seq<string>,
    removedGalleryImages: seq<string>)

  /** The first lookbook with the given id (`Array.prototype.find`). */
  function ItemKey(item: LookbookItem): int { item.id }

  function FindItem(items: seq<LookbookItem>, id: int): Option<LookbookItem> {
    FindBy(items, ItemKey, id)
  }

  /** The images shown in the gallery viewer: none when no lookbook is
      selected (a missing id or the falsy id 0), when the id is unknown, or when
      its gallery string is null or empty; otherwise the gallery entries. */
  function GalleryImages(selected: Option<int>, items: seq<LookbookItem>): (r: seq<string>)
    ensures selected.None? || selected.value == 0 ==> r == []
    ensures selected.Some? && FindItem(items, selected.value).None? ==> r == []
    ensures selected.Some? && selected.value != 0 && FindItem(items, selected.value).Some? ==>
              r == Entries(FindItem(items, selected.value).value.imagesUrl.GetOr(""))
    ensures forall i :: 0 <= i < |r| ==> IsEntry(r[i]) && Comma !in r[i]
  {
    if selected.None? || selected.value == 0 then []
    else match FindItem(items, selected.value)
      case None => []
      case Some(lb) =>
        if lb.imagesUrl.None? || lb.imagesUrl.value == "" then
          EntriesOfEmpty();
          []
        else Entries(lb.imagesUrl.value)
  }

  /** The edit dialog's gallery preview: the stored entries minus the ones
      marked for removal, in stored order. */
  function EditGalleryImages(editing: Option<LookbookItem>, data: EditData): (r: seq<string>)
    ensures editing.None? ==> r == []
    ensures forall i :: 0 <= i < |r| ==> r[i] !in data.removedGalleryImages
    ensures editing.Some? ==> IsSubsequence(r, Entries(editing.value.imagesUrl.GetOr("")))
    ensures editing.Some? ==> forall i | 0 <= i < |Entries(editing.value.imagesUrl.GetOr(""))| ::
              var u := Entries(editing.value.imagesUrl.GetOr(""))[i];
              u !in data.removedGalleryImages ==> u in r
    ensures editing.Some? ==> forall u :: u !in data.removedGalleryImages ==>
              multiset(r)[u] == multiset(Entries(editing.value.imagesUrl.GetOr("")))[u]
  {
    if editing.None? then []
    else
      var all := Entries(editing.value.imagesUrl.GetOr(""));
      FilterIsSubsequence(all, (u: string) => u !in data.removedGalleryImages);
      FilterCounts(all, (u: string) => u !in data.removedGalleryImages);
      Filter(all, (u: string) => u !in data.removedGalleryImages)
  }

  /** Marking an image for removal appends it to the list and changes nothing else. */
  function RemoveGalleryImage(data: EditData, url: string): (r: EditData)
    ensures r.removedGalleryImages == data.removedGalleryImages + [url]
    ensures r.(removedGalleryImages := data.removedGalleryImages) == data
  {
    data.(removedGalleryImages := data.removedGalleryImages + [url])
  }

  /** Once marked, an image no longer appears in the preview, and every other
      image shown before is still shown. */
  lemma RemoveHidesImage(editing: Option<LookbookItem>, data: EditData, url: string)
    ensures url !in EditGalleryImages(editing, RemoveGalleryImage(data, url))
    ensures forall i | 0 <= i < |EditGalleryImages(editing, data)| ::
              EditGalleryImages(editing, data)[i] != url ==>
              EditGalleryImages(editing, data)[i] in EditGalleryImages(editing, RemoveGalleryImage(data, url))
  {
    var after := EditGalleryImages(editing, RemoveGalleryImage(data, url));
    var before := EditGalleryImages(editing, data);
    forall i | 0 <= i < |before| && before[i] != url
      ensures before[i] in after
    {
      if editing.Some? {
        var all := Entries(editing.value.imagesUrl.GetOr(""));
        assert before[i] in all;
        var j :| 0 <= j < |all| && all[j] == before[i];
        assert all[j] !in RemoveGalleryImage(data, url).removedGalleryImages;
      }
    }
  }

  /** The removal list as the server decodes it: the array of strings that
      `JSON.stringify` produced. */
  function RemovalSent(data: EditData): (r: Backend.Removal)
    ensures r.Parsed? && r.json.JArray? && |r.json.items| == |data.removedGalleryImages|
    ensures forall i :: 0 <= i < |data.removedGalleryImages| ==>
              r.json.items[i] == Backend.JString(data.removedGalleryImages[i])
  {
    Backend.Parsed(Backend.JArray(MapSeq(data.removedGalleryImages, (u: string) => Backend.JString(u))))
  }

  /** What the dialog previews is what the server keeps: saving an edit with
      no new uploads stores exactly the previewed gallery entries. */
  lemma SavedGalleryMatchesPreview(stored: Backend.Lookbook, item: LookbookItem, data: EditData, body: Backend.LookbookBody)
    requires item.imagesUrl == stored.imagesUrl
    requires body.removedGalleryImages == RemovalSent(data)
    ensures Entries(Backend.UpdatedLookbook(stored, body, Backend.Uploads(None, None, [])).imagesUrl.GetOr(""))
         == EditGalleryImages(Some(item), data)
  {
    var list := RemovalSent(data).json;
    var before := Entries(stored.imagesUrl.GetOr(""));
    forall u: string
      ensures Backend.ListedForRemoval(list, u) <==> u in data.removedGalleryImages
    {
      if u in data.removedGalleryImages {
        var k :| 0 <= k < |data.removedGalleryImages| && data.removedGalleryImages[k] == u;
        assert list.items[k] == Backend.JString(u);
      }
      if Backend.JString(u) in list.items {
        var k :| 0 <= k < |list.items| && list.items[k] == Backend.JString(u);
        assert data.removedGalleryImages[k] == u;
      }
    }
    FilterSameTest(before, (u: string) => !Backend.ListedForRemoval(list, u),
                   (u: string) => u !in data.removedGalleryImages);
    var merged := Backend.UpdatedLookbook(stored, body, Backend.Uploads(None, None, [])).imagesUrl;
    if merged.None? {
      EntriesOfEmpty();
    }
  }

  /** `openEditModal`: the dialog starts from the lookbook's text fields, with
      null description and link shown empty, and with no files and no removals. */
  function OpenEditModal(lb: LookbookItem): (r: (Option<LookbookItem>, EditData))
    ensures r.0 == Some(lb)
    ensures r.1.name == lb.name
    ensures r.1.description == lb.description.GetOr("") && r.1.link == lb.link.GetOr("")
    ensures r.1.image.None? && r.1.banner.None? && r.1.gallery == [] && r.1.removedGalleryImages == []
  {
    (Some(lb), EditData(lb.name, lb.description.GetOr(""), lb.link.GetOr(""), None, None, [], []))
  }

  /** Right after opening, the preview is the whole stored gallery. */
  lemma OpenEditShowsWholeGallery(lb: LookbookItem)
    ensures EditGalleryImages(OpenEditModal(lb).0, OpenEditModal(lb).1) == Entries(lb.imagesUrl.GetOr(""))
  {
    var all := Entries(lb.imagesUrl.GetOr(""));
    FilterKeepsAll(all, (u: string) => u !in OpenEditModal(lb).1.removedGalleryImages);
  }

  /* ---------------------------------------------------------------------
     The statistics toggle
     --------------------------------------------------------------------- */

  /** Whether a card's statistics are shown; a missing key reads as false. */
  function Shown(m: map<int, bool>, id: int): bool {
    id in m && m[id]
  }

  function ToggleStats(m: map<int, bool>, id: int): (r: map<int, bool>)
    ensures Shown(r, id) == !Shown(m, id)
    ensures id in r
    ensures forall k :: k != id ==> (k in r <==> k in m)
    ensures forall k :: k != id && k in m ==> r[k] == m[k]
  {
    m[id := !Shown(m, id)]
  }

  /** Toggling the same card twice shows every card as before. */
  lemma ToggleStatsTwice(m: map<int, bool>, id: int, k: int)
    ensures Shown(ToggleStats(ToggleStats(m, id), id), k) == Shown(m, k)
  {
  }
}
