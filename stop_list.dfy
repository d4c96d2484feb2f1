/** The list of stops beside the map: a loading item, a failure item, or one entry per stop. */
module StopList {

  import opened EtaGrouping
  import opened EtaLabel
  import opened Geometry

  datatype ListItem =
    | LoadingItem
    | FailedItem
    | StopItem(nameTc: string, nameEn: string, eta: Label)

  /** The fixed texts of the loading item and of the failure item. */
  const LoadingText: string := "載入中..."
  const FailedText: string := "載入失敗"

  /**
   * The text a list item shows: a fixed message for the loading and the
   * failure item; for a stop, its Chinese name, " / ", its English name,
   * then its label's text.
   */
  function ItemText(item: ListItem): (t: string)
    ensures item.LoadingItem? ==> t == LoadingText
    ensures item.FailedItem? ==> t == FailedText
    ensures item.StopItem? ==>
              var shown := LabelText(item.eta);
              && |t| == |item.nameTc| + 3 + |item.nameEn| + |shown|
              && t[..|item.nameTc|] == item.nameTc
              && t[|item.nameTc|..|item.nameTc| + 3] == " / "
              && t[|item.nameTc| + 3..|t| - |shown|] == item.nameEn
              && t[|t| - |shown|..] == shown
  {
    match item
    case LoadingItem => LoadingText
    case FailedItem => FailedText
    case StopItem(tc, en, eta) => tc + " / " + en + LabelText(eta)
  }

  /** The loading and the failure message read differently. */
  lemma StatusTextsDiffer()
    ensures ItemText(LoadingItem) != ItemText(FailedItem)
  {
    assert LoadingText[2] != FailedText[2];
  }

  /** The entry of one stop: its two names and its arrival label. */
  function Entry(id: string, info: StopInfo, etaMap: EtaMap, now: int): ListItem
  {
    StopItem(info.nameTc, info.nameEn, StopLabel(etaMap, id, now))
  }

  /** The entries of all stops of the route, in route order. */
  function Entries(ids: seq<string>, stops: map<string, StopInfo>, etaMap: EtaMap, now: int): seq<ListItem>
    requires forall j :: 0 <= j < |ids| ==> ids[j] in stops
  {
    seq(|ids|, j requires 0 <= j < |ids| => Entry(ids[j], stops[ids[j]], etaMap, now))
  }

  /** The loop that appends one entry per stop to the emptied list. */
  method BuildEntries(ids: seq<string>, stops: map<string, StopInfo>, etaMap: EtaMap, now: int)
    returns (items: seq<ListItem>)
    requires forall j :: 0 <= j < |ids| ==> ids[j] in stops
    ensures |items| == |ids|
    ensures forall j :: 0 <= j < |ids| ==>
              items[j] == StopItem(stops[ids[j]].nameTc, stops[ids[j]].nameEn, StopLabel(etaMap, ids[j], now))
    ensures items == Entries(ids, stops, etaMap, now)
  {
    items := [];
    var i := 0;
    while i < |ids|
      invariant 0 <= i <= |ids| && |items| == i
      invariant forall j :: 0 <= j < i ==> items[j] == Entry(ids[j], stops[ids[j]], etaMap, now)
    {
      var info := stops[ids[i]];
      var eta := if ids[i] in etaMap && |etaMap[ids[i]]| > 0
                   then Minutes(MinutesUntil(etaMap[ids[i]][0], now))
                   else NoService;
      items := items + [StopItem(info.nameTc, info.nameEn, eta)];
      i := i + 1;
    }
  }
}
