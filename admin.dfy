/**
 * The site administration page, public-site/mgmt-2374e01bef794134/admin.js:
 * IP masking, the label tables, `capitalize`, the download-count prompt,
 * the seven-day download chart, and the banner editor's image list and
 * form. Its `escapeHtml` is `Html.EscapeHtml` with the basic table.
 */
module Admin {
  import opened Wrappers
  import opened Text
  import opened JsNumber
  import opened Dates

  // ----------------------------------------------------------- masking

  /** The four dot-separated parts of an IPv4 address, joined back. */
  function Dotted(a: string, b: string, c: string, d: string): string
  {
    a + "." + (b + "." + (c + "." + d))
  }

  /**
   * `maskIP(ip)`: `-` for a missing or empty address; the first two parts
   * and `.***.***` for text with exactly four dot-separated parts; otherwise
   * the first ten UTF-16 units (`substring(0, 10)`) and `***`.
   */
  function MaskIP(ip: Option<string>): string
  {
    if ip.None? || ip.value == "" then "-"
    else
      var parts := Split(ip.value, '.');
      if |parts| == 4 then parts[0] + "." + parts[1] + ".***.***"
      else Utf16Prefix(ip.value, 10) + "***"
  }

  /**
   * An IPv4 address keeps its first two parts and hides the last two: two
   * addresses that differ only there mask alike.
   */
  lemma MaskIPDotted(a: string, b: string, c: string, d: string, c2: string, d2: string)
    requires '.' !in a && '.' !in b && '.' !in c && '.' !in d && '.' !in c2 && '.' !in d2
    ensures MaskIP(Some(Dotted(a, b, c, d))) == a + "." + b + ".***.***"
    ensures MaskIP(Some(Dotted(a, b, c, d))) == MaskIP(Some(Dotted(a, b, c2, d2)))
  {
    assert MaskIP(Some(Dotted(a, b, c, d))) == a + "." + b + ".***.***" by {
      SplitFour(a, b, c, d);
      MaskFour(Dotted(a, b, c, d), a, b, c, d);
    }
    assert MaskIP(Some(Dotted(a, b, c2, d2))) == a + "." + b + ".***.***" by {
      SplitFour(a, b, c2, d2);
      MaskFour(Dotted(a, b, c2, d2), a, b, c2, d2);
    }
  }

  lemma MaskFour(ip: string, a: string, b: string, c: string, d: string)
    requires ip != "" && Split(ip, '.') == [a, b, c, d]
    ensures MaskIP(Some(ip)) == a + "." + b + ".***.***"
  {
  }

  lemma SplitFour(a: string, b: string, c: string, d: string)
    requires '.' !in a && '.' !in b && '.' !in c && '.' !in d
    ensures Split(a + "." + (b + "." + (c + "." + d)), '.') == [a, b, c, d]
  {
    var t := c + "." + d;
    var u := b + "." + t;
    var pt := Split(t, '.');
    var pu := Split(u, '.');
    assert pt == [c, d] by { SplitOnce(c, d, '.'); }
    assert pu == [b] + pt by { SplitAt(b, t, '.'); }
    assert Split(a + "." + u, '.') == [a] + pu by { SplitAt(a, u, '.'); }
    assert [a] + ([b] + [c, d]) == [a, b, c, d];
  }

  /** Text with one separator splits into the two sides. */
  lemma SplitOnce(c: string, d: string, sep: char)
    requires sep !in c && sep !in d
    ensures Split(c + [sep] + d, sep) == [c, d]
  {
    SplitAt(c, d, sep);
    assert Split(d, sep) == [d];
  }

  /**
   * The dash stands for no address and nothing else; any other text without
   * four parts shows at most its first ten characters, then `***`.
   */
  lemma MaskIPOther(ip: Option<string>)
    ensures MaskIP(ip) == "-" <==> ip.None? || ip.value == ""
    ensures ip.Some? && ip.value != "" && |Split(ip.value, '.')| != 4 ==>
      var r := MaskIP(ip);
      && EndsWith(r, "***") && |r| >= 3
      && r[..|r| - 3] == Utf16Prefix(ip.value, 10)
      && Utf16Length(r[..|r| - 3]) <= 10
      && (Utf16Length(ip.value) <= 10 ==> r[..|r| - 3] == ip.value)
  {
    if ip.Some? && ip.value != "" && |Split(ip.value, '.')| != 4 {
      var r := MaskIP(ip);
      assert r[..|r| - 3] == Utf16Prefix(ip.value, 10);
      Utf16PrefixFits(ip.value, 10);
      if Utf16Length(ip.value) <= 10 {
        Utf16PrefixWhole(ip.value, 10);
      }
    }
  }

  // ------------------------------------------------------------ labels

  /** The `labels` table of `getTypeLabel`. */
  const TypeLabels: map<string, string> := map["general" := "일반", "ads" := "광고", "bug" := "버그"]

  /** The `labels` table of `getStatusLabel`. */
  const StatusLabels: map<string, string> := map["pending" := "미답변", "answered" := "답변완료", "closed" := "종료"]

  /** The `labels` table of `getPositionLabel`. */
  const PositionLabels: map<string, string> := map[
    "content-top" := "콘텐츠 상단", "price-bottom" := "시세 하단",
    "stats-bottom" := "통계 하단", "trend-bottom" := "트렌드 하단"]

  function TypeLabel(t: string): string { NameOr(TypeLabels, t) }

  function StatusLabel(s: string): string { NameOr(StatusLabels, s) }

  function PositionLabel(p: string): string { NameOr(PositionLabels, p) }

  /** Each lookup gives its input back exactly when the table lacks it, and the table's label otherwise. */
  lemma LabelsFallBack(key: string)
    ensures TypeLabel(key) == key <==> key !in TypeLabels
    ensures StatusLabel(key) == key <==> key !in StatusLabels
    ensures PositionLabel(key) == key <==> key !in PositionLabels
    ensures key in TypeLabels ==> TypeLabel(key) == TypeLabels[key]
    ensures key in StatusLabels ==> StatusLabel(key) == StatusLabels[key]
    ensures key in PositionLabels ==> PositionLabel(key) == PositionLabels[key]
  {
    assert ProperNames(TypeLabels);
    assert ProperNames(StatusLabels);
    assert ProperNames(PositionLabels);
    NameOrSpec(TypeLabels, key);
    NameOrSpec(StatusLabels, key);
    NameOrSpec(PositionLabels, key);
  }

  // -------------------------------------------------------- capitalize

  predicate IsLower(c: char) { 'a' <= c <= 'z' }

  /** `toUpperCase()` of one character, for the ASCII letters. */
  function UpperChar(c: char): char
  {
    if IsLower(c) then (c as int - 32) as char else c
  }

  /** `capitalize(str)`: the first character upper-cased, the rest as it is. */
  function Capitalize(s: string): string
  {
    if s == [] then [] else [UpperChar(s[0])] + s[1..]
  }

  /**
   * Only the first character can change, and it becomes the capital of a
   * lower-case letter; capitalizing twice is capitalizing once.
   */
  lemma CapitalizeSpec(s: string)
    ensures |Capitalize(s)| == |s|
    ensures s != [] ==>
      && Capitalize(s)[1..] == s[1..]
      && !IsLower(Capitalize(s)[0])
      && (IsLower(s[0]) ==> 'A' <= Capitalize(s)[0] <= 'Z' && Capitalize(s)[0] as int + 32 == s[0] as int)
      && (!IsLower(s[0]) ==> Capitalize(s) == s)
    ensures Capitalize(Capitalize(s)) == Capitalize(s)
  {
    if s != [] {
      assert Capitalize(s)[1..] == s[1..];
    }
  }

  // ------------------------------------------------- download counts

  /**
   * `parseInt(text, 10)`: leading white space skipped, an optional sign,
   * then the longest run of decimal digits; NaN (here `None`) without one.
   */
  function ParseInt(text: string): Option<int>
  {
    var t := TrimStart(text);
    var signed := t != [] && (t[0] == '-' || t[0] == '+');
    var body := if signed then t[1..] else t;
    var k := DigitRun(body);
    var magnitude: int := if k == 0 then 0 else DigitsValue(body[..k]);
    if k == 0 then None
    else if signed && t[0] == '-' then Some(-magnitude)
    else Some(magnitude)
  }

  /** A written count parses back to itself. */
  lemma ParseIntNat(n: nat)
    ensures ParseInt(NatToString(n)) == Some(n)
  {
    var s := NatToString(n);
    assert !IsJsSpace(s[0]);
    assert TrimStart(s) == s;
    DigitRunAll(s);
    assert s[..|s|] == s;
    NatToStringRoundTrip(n);
  }

  /** What `editDownloadCount` does with the prompt's answer. */
  datatype CountEdit = Cancelled | Rejected | Submit(value: string)

  /**
   * `prompt` returns `null` (here `None`) on cancel; an answer that is not a
   * number or is negative is refused before any request; otherwise the
   * request carries `String(count)`.
   */
  function EditDownloadCount(answer: Option<string>): CountEdit
  {
    if answer.None? then Cancelled
    else
      var count := ParseInt(answer.value);
      if count.None? || count.value < 0 then Rejected else Submit(NatToString(count.value))
  }

  /**
   * A request is made exactly for an answer that parses to a count of at
   * least 0, and its value is that count in plain digits, which parses
   * back to the same count.
   */
  lemma EditDownloadCountSpec(answer: Option<string>)
    ensures EditDownloadCount(answer).Cancelled? <==> answer.None?
    ensures EditDownloadCount(answer).Rejected? <==>
      answer.Some? && (ParseInt(answer.value).None? || ParseInt(answer.value).value < 0)
    ensures EditDownloadCount(answer).Submit? ==>
      && AllDigits(EditDownloadCount(answer).value)
      && ParseInt(EditDownloadCount(answer).value) == ParseInt(answer.value)
      && ParseInt(answer.value).value >= 0
  {
    if EditDownloadCount(answer).Submit? {
      ParseIntNat(ParseInt(answer.value).value);
    }
  }

  // --------------------------------------------------------------- chart

  /** One row of the daily download statistics: a `YYYY-MM-DD` key and its count. */
  datatype DailyCount = DailyCount(date: string, count: int)

  /** `dailyData.find(d => d.date === key)?.count || 0`. */
  function CountOn(daily: seq<DailyCount>, key: string): int
  {
    if daily == [] then 0 else if daily[0].date == key then daily[0].count else CountOn(daily[1..], key)
  }

  /** The first row with the key gives the count; without one the count is 0. */
  lemma {:induction false} CountOnSpec(daily: seq<DailyCount>, key: string, i: int)
    ensures (forall j :: 0 <= j < |daily| ==> daily[j].date != key) ==> CountOn(daily, key) == 0
    ensures 0 <= i < |daily| && daily[i].date == key && (forall j :: 0 <= j < i ==> daily[j].date != key) ==>
      CountOn(daily, key) == daily[i].count
  {
    if daily != [] && daily[0].date != key {
      CountOnSpec(daily[1..], key, i - 1);
      assert forall j :: 0 <= j < |daily[1..]| ==> daily[1..][j] == daily[j + 1];
    }
  }

  /** The date `6 - k` days before `today`, as `setDate(getDate() - i)` makes it. */
  function ChartDay(today: Date, k: int): Date
    requires ValidDate(today)
  {
    MakeDate(today.year, today.month, today.day - (6 - k))
  }

  /** The axis label `${month + 1}/${day}`. */
  function DayLabel(d: Date): string
    requires ValidDate(d)
  {
    NatToString(d.month + 1) + "/" + NatToString(d.day)
  }

  /** The seven chart days run oldest first, one day apart, ending today. */
  lemma ChartDaysConsecutive(today: Date, k: int)
    requires ValidDate(today) && 0 <= k < 7
    ensures var d := ChartDay(today, k);
      DayNumber(d.year, d.month, d.day) == DayNumber(today.year, today.month, today.day) - (6 - k)
    ensures k < 6 ==> var d, e := ChartDay(today, k), ChartDay(today, k + 1);
      DayNumber(e.year, e.month, e.day) == DayNumber(d.year, d.month, d.day) + 1
    ensures ChartDay(today, 6) == today
  {
    var t := DayNumber(today.year, today.month, today.day);
    var d := ChartDay(today, k);
    assert DayNumber(d.year, d.month, d.day) == t - (6 - k) by {
      assert d == MakeDate(today.year, today.month, today.day + -(6 - k));
      ShiftDayNumber(today, -(6 - k));
    }
    if k < 6 {
      var e := ChartDay(today, k + 1);
      assert DayNumber(e.year, e.month, e.day) == t - (6 - (k + 1)) by {
        assert e == MakeDate(today.year, today.month, today.day + -(6 - (k + 1)));
        ShiftDayNumber(today, -(6 - (k + 1)));
      }
    }
    assert ChartDay(today, 6) == today by {
      assert ChartDay(today, 6) == MakeDate(today.year, today.month, today.day);
      NewDateValid(today);
    }
  }

  /** The labels and counts of the first `|labels|` chart days. */
  ghost predicate ChartSoFar(today: Date, daily: seq<DailyCount>, labels: seq<string>, data: seq<int>)
    requires ValidDate(today)
  {
    |labels| == |data|
    && forall k :: 0 <= k < |labels| ==>
         labels[k] == DayLabel(ChartDay(today, k)) && data[k] == CountOn(daily, IsoDate(ChartDay(today, k)))
  }

  lemma ChartStep(today: Date, daily: seq<DailyCount>, labels: seq<string>, data: seq<int>)
    requires ValidDate(today) && ChartSoFar(today, daily, labels, data)
    ensures var d := ChartDay(today, |labels|);
      ChartSoFar(today, daily, labels + [DayLabel(d)], data + [CountOn(daily, IsoDate(d))])
  {
    var d := ChartDay(today, |labels|);
    var ls, ds := labels + [DayLabel(d)], data + [CountOn(daily, IsoDate(d))];
    forall k | 0 <= k < |ls|
      ensures ls[k] == DayLabel(ChartDay(today, k)) && ds[k] == CountOn(daily, IsoDate(ChartDay(today, k)))
    {
      if k < |labels| {
        assert ls[k] == labels[k] && ds[k] == data[k];
      }
    }
  }

  /**
   * `initChart(dailyData)`: the `for` loop from six days ago to today that
   * pushes each day's label and count. The day's key is `IsoDate`.
   */
  method InitChart(today: Date, daily: seq<DailyCount>) returns (labels: seq<string>, data: seq<int>)
    requires ValidDate(today)
    ensures |labels| == 7 && |data| == 7
    ensures forall k :: 0 <= k < 7 ==> labels[k] == DayLabel(ChartDay(today, k))
    ensures forall k :: 0 <= k < 7 ==> data[k] == CountOn(daily, IsoDate(ChartDay(today, k)))
  {
    labels := [];
    data := [];
    var i := 6;
    while i >= 0
      invariant -1 <= i <= 6 && |labels| == 6 - i
      invariant ChartSoFar(today, daily, labels, data)
    {
      var date := MakeDate(today.year, today.month, today.day - i);
      assert date == ChartDay(today, |labels|);
      ChartStep(today, daily, labels, data);
      labels := labels + [DayLabel(date)];
      data := data + [CountOn(daily, IsoDate(date))];
      i := i - 1;
    }
  }

  // ------------------------------------------------------------- banners

  /** One banner image as the editor holds it. */
  datatype Image = Image(filename: string, url: string)

  /** An image as older banners stored it (a bare file name) or as newer ones do. */
  datatype StoredImage = FileName(name: string) | ImageObject(image: Image)

  /** A banner record as `openBannerModal` receives it; missing fields are `None`. */
  datatype Banner = Banner(id: Option<int>, name: Option<string>, position: Option<string>,
                           images: Option<seq<StoredImage>>, linkUrl: Option<string>,
                           startDate: Option<string>, endDate: Option<string>,
                           transition: Option<string>, interval: Option<int>)

  /** `x || fallback` for an optional text. */
  function TextOr(x: Option<string>, fallback: string): string
  {
    if x.Some? && x.value != "" then x.value else fallback
  }

  /** The `images.map` of `openBannerModal`: a file name gets the banner's link (or no link); an object is kept. */
  function NormalizeImage(img: StoredImage, linkUrl: Option<string>): Image
  {
    match img
    case FileName(name) => Image(name, TextOr(linkUrl, ""))
    case ImageObject(image) => image
  }

  function NormalizeImages(images: seq<StoredImage>, linkUrl: Option<string>): seq<Image>
  {
    seq(|images|, i requires 0 <= i < |images| => NormalizeImage(images[i], linkUrl))
  }

  /**
   * One image per stored image, in order: a file name becomes that file
   * with the banner's link, and normalising images that are already
   * objects changes nothing.
   */
  lemma NormalizeImagesSpec(images: seq<StoredImage>, linkUrl: Option<string>, objects: seq<Image>)
    ensures |NormalizeImages(images, linkUrl)| == |images|
    ensures forall i :: 0 <= i < |images| && images[i].FileName? ==>
      NormalizeImages(images, linkUrl)[i].filename == images[i].name
      && NormalizeImages(images, linkUrl)[i].url == (if linkUrl.Some? then linkUrl.value else "")
    ensures forall i :: 0 <= i < |images| && images[i].ImageObject? ==> NormalizeImages(images, linkUrl)[i] == images[i].image
    ensures NormalizeImages(seq(|objects|, i requires 0 <= i < |objects| => ImageObject(objects[i])), linkUrl) == objects
  {
  }

  /** The form fields `openBannerModal` fills in. */
  datatype BannerForm = BannerForm(title: string, name: string, position: string, startDate: string,
                                   endDate: string, transition: string, interval: int)

  /** The form for a banner, or for a new one, with the documented defaults. */
  function FormFor(banner: Option<Banner>): BannerForm
  {
    if banner.None? then BannerForm("배너 추가", "", "content-top", "", "", "fade", 5000)
    else
      var b := banner.value;
      BannerForm("배너 수정", TextOr(b.name, ""), TextOr(b.position, "content-top"),
                 TextOr(b.startDate, ""), TextOr(b.endDate, ""), TextOr(b.transition, "fade"),
                 if b.interval.Some? && b.interval.value != 0 then b.interval.value else 5000)
  }

  /** A new banner opens with position `content-top`, the fade transition and 5000 ms; a stored value wins when set. */
  lemma FormDefaults(banner: Option<Banner>)
    ensures banner.None? ==> FormFor(banner).position == "content-top" && FormFor(banner).transition == "fade" && FormFor(banner).interval == 5000
    ensures FormFor(banner).interval != 0
    ensures banner.Some? && banner.value.position.Some? && banner.value.position.value != "" ==> FormFor(banner).position == banner.value.position.value
    ensures FormFor(banner).title == (if banner.Some? then "배너 수정" else "배너 추가")
  {
  }

  /** `uploadedImages.splice(index, 1)`: a negative index counts from the end; one past the end removes nothing. */
  function SpliceOne<T>(s: seq<T>, index: int): seq<T>
  {
    var start := if index < 0 then (if |s| + index < 0 then 0 else |s| + index) else (if index > |s| then |s| else index);
    if start < |s| then s[..start] + s[start + 1..] else s
  }

  /** Removing an existing index deletes exactly that image and keeps the others in order. */
  lemma SpliceOneSpec<T>(s: seq<T>, index: int)
    ensures 0 <= index < |s| ==>
      && |SpliceOne(s, index)| == |s| - 1
      && (forall j :: 0 <= j < index ==> SpliceOne(s, index)[j] == s[j])
      && (forall j :: index <= j < |s| - 1 ==> SpliceOne(s, index)[j] == s[j + 1])
    ensures index >= |s| ==> SpliceOne(s, index) == s
    ensures -|s| <= index < 0 ==> SpliceOne(s, index) == SpliceOne(s, |s| + index)
  {
  }

  /** `uploadedImages[index].url = url` when there is an image at `index`. */
  function WithUrl(images: seq<Image>, index: int, url: string): seq<Image>
  {
    if 0 <= index < |images| then images[index := images[index].(url := url)] else images
  }

  /** Only the url of the image at an existing index changes; file names and order never do. */
  lemma WithUrlSpec(images: seq<Image>, index: int, url: string)
    ensures |WithUrl(images, index, url)| == |images|
    ensures forall j :: 0 <= j < |images| ==> WithUrl(images, index, url)[j].filename == images[j].filename
    ensures forall j :: 0 <= j < |images| && j != index ==> WithUrl(images, index, url)[j] == images[j]
    ensures 0 <= index < |images| ==> WithUrl(images, index, url)[index].url == url
  {
  }

  /** The answer of one upload request. */
  datatype UploadResult = Uploaded(filename: string) | UploadFailed | UploadThrew

  /** One chosen file: its size in bytes and what its upload returned (when it was sent). */
  datatype Upload = Upload(size: int, result: UploadResult)

  /** Files larger than this are refused without a request. */
  const MaxUploadBytes: int := 2 * 1024 * 1024

  /** The images the upload handler adds: one per file within the limit whose upload succeeded. */
  function UploadedImages(files: seq<Upload>): seq<Image>
  {
    if files == [] then []
    else
      var last := files[|files| - 1];
      UploadedImages(files[..|files| - 1])
        + (if last.size <= MaxUploadBytes && last.result.Uploaded? then [Image(last.result.filename, "")] else [])
  }

  /** Every added image is a successful upload of an allowed file, with no link yet. */
  lemma {:induction false} UploadedImagesSpec(files: seq<Upload>, img: Image)
    ensures |UploadedImages(files)| <= |files|
    ensures img in UploadedImages(files) ==>
      && img.url == ""
      && exists i :: 0 <= i < |files| && files[i].size <= MaxUploadBytes && files[i].result == Uploaded(img.filename)
  {
    if files != [] {
      var init := files[..|files| - 1];
      UploadedImagesSpec(init, img);
      if img in UploadedImages(init) {
        var i :| 0 <= i < |init| && init[i].size <= MaxUploadBytes && init[i].result == Uploaded(img.filename);
        assert files[i] == init[i];
      }
    }
  }

  /** The request body of `saveBanner`. */
  datatype BannerBody = BannerBody(name: string, position: string, images: seq<Image>, startDate: Option<string>,
                                   endDate: Option<string>, transition: string, interval: int)

  /** What `saveBanner` does: refuse (no name, no image), or update the open banner, or create one. */
  datatype SaveOutcome = NeedName | NeedImages | Patch(id: int, body: BannerBody) | Post(body: BannerBody)

  /**
   * The state of the banner dialog: `currentBannerId`, `uploadedImages`
   * and the form fields. The image items are values here.
   */
  class BannerEditor {
    var currentBannerId: Option<int>
    var images: seq<Image>
    var form: BannerForm

    constructor ()
      ensures currentBannerId.None? && images == []
    {
      currentBannerId := None;
      images := [];
      form := FormFor(None);
    }

    /** `openBannerModal(banner)`: an id of 0 counts as none; the images are normalised copies. */
    method Open(banner: Option<Banner>)
      modifies this
      ensures currentBannerId == (if banner.Some? && banner.value.id.Some? && banner.value.id.value != 0 then banner.value.id else None)
      ensures images == (if banner.Some? && banner.value.images.Some? then NormalizeImages(banner.value.images.value, banner.value.linkUrl) else [])
      ensures form == FormFor(banner)
    {
      currentBannerId := if banner.Some? && banner.value.id.Some? && banner.value.id.value != 0 then banner.value.id else None;
      if banner.Some? && banner.value.images.Some? {
        images := NormalizeImages(banner.value.images.value, banner.value.linkUrl);
      } else {
        images := [];
      }
      form := FormFor(banner);
    }

    /** `closeBannerModal()`: the form is reset and the images dropped. */
    method Close()
      modifies this
      ensures currentBannerId.None? && images == [] && form == FormFor(None)
    {
      currentBannerId := None;
      images := [];
      form := FormFor(None);
    }

    method UpdateImageUrl(index: int, url: string)
      modifies this
      ensures images == WithUrl(old(images), index, url)
      ensures currentBannerId == old(currentBannerId) && form == old(form)
    {
      if 0 <= index < |images| {
        images := images[index := images[index].(url := url)];
      }
    }

    method RemoveImage(index: int)
      modifies this
      ensures images == SpliceOne(old(images), index)
      ensures currentBannerId == old(currentBannerId) && form == old(form)
    {
      images := SpliceOne(images, index);
    }

    /** The `change` handler's loop: too large files are skipped, successful uploads appended. */
    method UploadFiles(files: seq<Upload>)
      modifies this
      ensures images == old(images) + UploadedImages(files)
      ensures currentBannerId == old(currentBannerId) && form == old(form)
    {
      var i := 0;
      while i < |files|
        invariant 0 <= i <= |files|
        invariant images == old(images) + UploadedImages(files[..i])
        invariant currentBannerId == old(currentBannerId) && form == old(form)
      {
        var file := files[i];
        assert files[..i + 1][..i] == files[..i];
        if file.size > MaxUploadBytes {
          i := i + 1;
          continue;
        }
        if file.result.Uploaded? {
          images := images + [Image(file.result.filename, "")];
        }
        i := i + 1;
      }
      assert files[..i] == files;
    }

    /**
     * `saveBanner()` with the form's current field texts: the name is
     * trimmed, empty dates are `null` and an unparseable or zero interval is
     * 5000. Once the answer to the request parsed as JSON the dialog
     * closes: `apiRequest` never looks at the status, so a refused save
     * closes it too.
     */
    method Save(name: string, position: string, startDate: string, endDate: string, transition: string,
                intervalText: string, answerParsed: bool) returns (outcome: SaveOutcome)
      modifies this
      ensures outcome == SaveFor(old(currentBannerId), old(images), name, position, startDate, endDate, transition, intervalText)
      ensures (outcome.Patch? || outcome.Post?) && answerParsed ==> currentBannerId.None? && images == [] && form == FormFor(None)
      ensures !((outcome.Patch? || outcome.Post?) && answerParsed) ==>
        currentBannerId == old(currentBannerId) && images == old(images) && form == old(form)
    {
      outcome := SaveFor(currentBannerId, images, name, position, startDate, endDate, transition, intervalText);
      if (outcome.Patch? || outcome.Post?) && answerParsed {
        Close();
      }
    }
  }

  /**
   * The request `saveBanner` sends, or the toast that stops it. The interval
   * is `parseInt(value) || 5000`, read here with the decimal `ParseInt`. With
   * no radix `parseInt` would read a `0x` prefix as hexadecimal, but the
   * interval field is a number input, whose value never holds such a prefix,
   * so the two readings agree on every value the form can send.
   */
  function SaveFor(id: Option<int>, images: seq<Image>, name: string, position: string, startDate: string,
                   endDate: string, transition: string, intervalText: string): SaveOutcome
  {
    var trimmed := Trim(name);
    var parsed := ParseInt(intervalText);
    var interval := if parsed.Some? && parsed.value != 0 then parsed.value else 5000;
    var body := BannerBody(trimmed, position, images, if startDate == "" then None else Some(startDate),
                           if endDate == "" then None else Some(endDate), transition, interval);
    if trimmed == "" then NeedName
    else if images == [] then NeedImages
    else if id.Some? && id.value != 0 then Patch(id.value, body)
    else Post(body)
  }

  /**
   * A banner is saved only with a name that is not blank and at least one
   * image, as an update exactly when a banner is open; the body carries
   * the trimmed name, every image, and a non-zero interval.
   */
  lemma SaveForSpec(id: Option<int>, images: seq<Image>, name: string, position: string, startDate: string,
                    endDate: string, transition: string, intervalText: string)
    ensures var o := SaveFor(id, images, name, position, startDate, endDate, transition, intervalText);
      && (o.NeedName? <==> Trim(name) == "")
      && (o.NeedImages? <==> Trim(name) != "" && images == [])
      && (o.Patch? <==> Trim(name) != "" && images != [] && id.Some? && id.value != 0)
      && (o.Patch? ==> o.id == id.value)
      && ((o.Patch? || o.Post?) ==>
            && o.body.name == Trim(name) && o.body.images == images && o.body.interval != 0
            && o.body.name != [] && !IsJsSpace(o.body.name[0]))
  {
    TrimEdges(name);
  }
}
