/**
 * MainActivity: the screen with the radio group and the LoadingButton.
 * A click picks a URL from the checked radio button, asks the download
 * manager to enqueue it and puts the button into its loading state; the
 * download-complete receiver looks the finished download up and posts a
 * notification whose intent carries the DetailActivity Bundle.
 *
 * The platform is abstracted: what the activity asks of it is appended to
 * the ghost log `effects`; what it gets back (the id enqueue returns, the
 * rows of the download manager's table) is passed in as parameters.
 */
module MainScreen {
  import opened Wrappers
  import DetailScreen
  import LoadingButtonView

  const Url: string :=
    "https://github.com/udacity/nd940-c3-advanced-android-programming-project-starter/archive/master.zip"
  const UrlGlide: string := "https://github.com/bumptech/glide/archive/master.zip"
  const UrlRetrofit: string := "https://github.com/square/retrofit/archive/master.zip"

  /** The view ids of the three radio buttons. */
  datatype RadioIds = RadioIds(glide: int, loadApp: int, retrofit: int)

  /** The click listener's `when`: the URL for the checked radio button,
      tried in the order glide, loadApp, retrofit; None for any other id
      (no button checked included). */
  function SelectUrl(checked: int, radios: RadioIds): (url: Option<string>)
    ensures url.None? <==> checked !in {radios.glide, radios.loadApp, radios.retrofit}
    ensures url.Some? ==> url.value in {UrlGlide, Url, UrlRetrofit}
    ensures url == Some(UrlGlide) <==> checked == radios.glide
    ensures url == Some(Url) <==> checked == radios.loadApp && checked != radios.glide
    ensures url == Some(UrlRetrofit) <==>
      checked == radios.retrofit && checked != radios.glide && checked != radios.loadApp
  {
    if checked == radios.glide then Some(UrlGlide)
    else if checked == radios.loadApp then Some(Url)
    else if checked == radios.retrofit then Some(UrlRetrofit)
    else None
  }

  /** With three distinct radio ids, each radio button selects its own URL. */
  lemma EachRadioSelectsItsUrl(radios: RadioIds)
    requires radios.glide != radios.loadApp && radios.glide != radios.retrofit
    requires radios.loadApp != radios.retrofit
    ensures SelectUrl(radios.glide, radios) == Some(UrlGlide)
    ensures SelectUrl(radios.loadApp, radios) == Some(Url)
    ensures SelectUrl(radios.retrofit, radios) == Some(UrlRetrofit)
  {
  }

  /** Long.toInt(): keeps the low 32 bits, read as a signed int. */
  function LongToInt(x: int): (r: int)
    ensures -0x8000_0000 <= r < 0x8000_0000
    ensures (x - r) % 0x1_0000_0000 == 0
  {
    var low := x % 0x1_0000_0000;
    if low < 0x8000_0000 then low else low - 0x1_0000_0000
  }

  /** A download id that already fits in an Int, -1 included, is unchanged. */
  lemma LongToIntInRange(x: int)
    requires -0x8000_0000 <= x < 0x8000_0000
    ensures LongToInt(x) == x
  {
    var r := LongToInt(x);
    var d := x - r;
    assert -0x1_0000_0000 < d < 0x1_0000_0000;
    assert d % 0x1_0000_0000 == 0;
  }

  /** The broadcast's intent: its EXTRA_DOWNLOAD_ID long extra, if present. */
  datatype Intent = Intent(downloadIdExtra: Option<int>)

  /** The download id the receiver reads: -1 for a null intent or a
      missing extra. */
  function ReceivedDownloadId(intent: Option<Intent>): (id: int)
    ensures intent.None? ==> id == -1
    ensures intent.Some? ==> id == if intent.value.downloadIdExtra.Some?
                                   then intent.value.downloadIdExtra.value else -1
  {
    match intent
    case None => -1
    case Some(i) =>
      match i.downloadIdExtra
      case None => -1
      case Some(v) => v
  }

  /** A row of the download manager's table: COLUMN_STATUS and COLUMN_TITLE. */
  datatype DownloadRow = DownloadRow(status: int, title: string)

  /** A posted notification: its id and the extras it was posted with. */
  datatype Notification = Notification(id: int, extras: DetailScreen.Bundle)

  /** onReceive and sendNotification: the notification posted for a
      broadcast, given the download manager's rows by id. There is one
      exactly when the query by the received id has a first row; its id and
      the id in its Bundle are both the received id as an Int. */
  function Route(intent: Option<Intent>, downloads: map<int, DownloadRow>): (n: Option<Notification>)
    ensures n.Some? <==> ReceivedDownloadId(intent) in downloads
    ensures n.Some? ==>
      var id := ReceivedDownloadId(intent);
      && n.value.id == LongToInt(id)
      && DetailScreen.ReadExtras(n.value.extras)
         == DetailScreen.Extras(LongToInt(id), downloads[id].status, downloads[id].title)
  {
    var id := ReceivedDownloadId(intent);
    if id in downloads then
      var row := downloads[id];
      DetailScreen.ReadGetBundle(LongToInt(id), row.status, row.title);
      Some(Notification(LongToInt(id), DetailScreen.GetBundle(LongToInt(id), row.status, row.title)))
    else
      None
  }

  /** The request code of every notification's PendingIntent (`notificationId`). */
  const NotificationRequestCode: int := 0

  /** The extras of the PendingIntent behind every notification's "show
      details" action, after a broadcast. sendNotification always asks for
      the same request code, for the same activity, with FLAG_UPDATE_CURRENT,
      so all notifications share one PendingIntent and each post replaces its
      extras; a broadcast that posts nothing keeps them. */
  function SharedExtrasAfter(shared: Option<DetailScreen.Bundle>, intent: Option<Intent>,
                             downloads: map<int, DownloadRow>): (after: Option<DetailScreen.Bundle>)
    ensures Route(intent, downloads).Some? ==>
      var id := ReceivedDownloadId(intent);
      && after.Some?
      && DetailScreen.ReadExtras(after.value)
         == DetailScreen.Extras(LongToInt(id), downloads[id].status, downloads[id].title)
    ensures Route(intent, downloads).None? ==> after == shared
  {
    match Route(intent, downloads)
    case Some(n) => Some(n.extras)
    case None => shared
  }

  /** Right after a notification is posted, its action opens a detail screen
      that shows the download's title, labels its status, and cancels that
      same notification. */
  lemma LatestNotificationOpensItsDetail(shared: Option<DetailScreen.Bundle>, intent: Option<Intent>,
                                         downloads: map<int, DownloadRow>)
    requires Route(intent, downloads).Some?
    ensures
      var n := Route(intent, downloads).value;
      var row := downloads[ReceivedDownloadId(intent)];
      DetailScreen.Open(SharedExtrasAfter(shared, intent, downloads))
      == DetailScreen.Displayed(DetailScreen.Shown(row.title, DetailScreen.StatusLabel(row.status), n.id))
  {
    var id := ReceivedDownloadId(intent);
    var row := downloads[id];
    DetailScreen.OpenGetBundle(LongToInt(id), row.status, row.title);
  }

  /** Once a second notification is posted, the first one's action opens
      the second download's detail screen, which cancels the second
      notification and leaves the first one posted. */
  lemma EarlierNotificationOpensLatestDetail(shared: Option<DetailScreen.Bundle>,
                                             first: Option<Intent>, second: Option<Intent>,
                                             downloads: map<int, DownloadRow>)
    requires Route(first, downloads).Some? && Route(second, downloads).Some?
    requires Route(first, downloads).value.id != Route(second, downloads).value.id
    ensures
      var o := DetailScreen.Open(SharedExtrasAfter(SharedExtrasAfter(shared, first, downloads), second, downloads));
      && o.Displayed?
      && o.shown.fileNameText == downloads[ReceivedDownloadId(second)].title
      && o.shown.cancelledNotification == Route(second, downloads).value.id
      && o.shown.cancelledNotification != Route(first, downloads).value.id
  {
    LatestNotificationOpensItsDetail(SharedExtrasAfter(shared, first, downloads), second, downloads);
  }

  /** What the activity asks of the platform. */
  datatype Effect =
    | Enqueue(url: string)
    | EmptySelectionToast
    | ButtonClicked
    | Notify(notification: Notification)

  /** The extras of the most recently posted notification in a log, if any. */
  ghost function LatestNotifiedExtras(log: seq<Effect>): Option<DetailScreen.Bundle>
  {
    if log == [] then None
    else if log[|log| - 1].Notify? then Some(log[|log| - 1].notification.extras)
    else LatestNotifiedExtras(log[..|log| - 1])
  }

  /** Once anything has been posted, there is a most recent post. */
  lemma {:induction false} PostedHasLatest(log: seq<Effect>, e: Effect)
    requires e in log && e.Notify?
    ensures LatestNotifiedExtras(log).Some?
  {
    var last := log[|log| - 1];
    if !last.Notify? {
      var init := log[..|log| - 1];
      assert log == init + [last];
      assert e in init;
      PostedHasLatest(init, e);
    }
  }

  /** Effects other than posts do not change which post is the latest. */
  lemma {:induction false} LatestIgnoresOtherEffects(log: seq<Effect>, tail: seq<Effect>)
    requires forall i :: 0 <= i < |tail| ==> !tail[i].Notify?
    ensures LatestNotifiedExtras(log + tail) == LatestNotifiedExtras(log)
  {
    if tail != [] {
      var init := tail[..|tail| - 1];
      assert (log + tail)[|log + tail| - 1] == tail[|tail| - 1];
      assert (log + tail)[..|log + tail| - 1] == log + init;
      LatestIgnoresOtherEffects(log, init);
    } else {
      assert log + tail == log;
    }
  }

  class MainActivity {
    var downloadID: int
    /** Whether custom_button has a click listener. */
    var hasClickListener: bool
    /** How many click listeners onCreate has installed. */
    ghost var listenersInstalled: nat
    const button: LoadingButtonView.LoadingButton
    const radios: RadioIds
    /** Everything asked of the platform, in order. */
    ghost var effects: seq<Effect>
    /** `pendingIntent`: the extras of the PendingIntent every posted
        notification's action shares; None until the first post. */
    var pendingIntent: Option<DetailScreen.Bundle>

    /** At most one click listener, and the shared extras are always those
        of the most recently posted notification. */
    ghost predicate Valid()
      reads this, button
    {
      && button.Settled()
      && listenersInstalled == (if hasClickListener then 1 else 0)
      && pendingIntent == LatestNotifiedExtras(effects)
    }

    constructor (button: LoadingButtonView.LoadingButton, radios: RadioIds)
      requires button.Settled()
      ensures Valid()
      ensures this.button == button && this.radios == radios
      ensures downloadID == 0 && !hasClickListener && effects == [] && pendingIntent == None
    {
      this.button := button;
      this.radios := radios;
      downloadID := 0;
      hasClickListener := false;
      listenersInstalled := 0;
      effects := [];
      pendingIntent := None;
    }

    /** The part of onCreate that installs the click listener, which it
        does only when the button has none. */
    method OnCreate()
      requires Valid()
      modifies this
      ensures Valid() && hasClickListener && listenersInstalled == 1
      ensures downloadID == old(downloadID) && effects == old(effects)
    {
      if !hasClickListener {
        hasClickListener := true;
        listenersInstalled := listenersInstalled + 1;
      }
    }

    /** download: enqueues a request for the URL and keeps the id the
        download manager returns for it. */
    method Download(url: string, enqueuedId: int)
      modifies this`downloadID, this`effects
      ensures downloadID == enqueuedId
      ensures effects == old(effects) + [Enqueue(url)]
    {
      effects := effects + [Enqueue(url)];
      downloadID := enqueuedId;
    }

    /** A click on custom_button while `checked` is the checked radio id;
        `enqueuedId` is what the download manager returns if asked. */
    method Click(checked: int, enqueuedId: int)
      requires Valid()
      modifies this, button
      ensures Valid() && hasClickListener == old(hasClickListener)
      ensures pendingIntent == old(pendingIntent)
      ensures !old(hasClickListener) ==>
        downloadID == old(downloadID) && effects == old(effects) && unchanged(button)
      ensures old(hasClickListener) && SelectUrl(checked, radios).None? ==>
        && effects == old(effects) + [EmptySelectionToast]
        && downloadID == old(downloadID) && unchanged(button)
      ensures old(hasClickListener) && SelectUrl(checked, radios).Some? ==>
        && effects == old(effects) + [Enqueue(SelectUrl(checked, radios).value), ButtonClicked]
        && downloadID == enqueuedId
        && button.state == LoadingButtonView.Loading && button.running && button.progress == 0
        && button.calls == old(button.calls) + [LoadingButtonView.Cancel, LoadingButtonView.Start]
    {
      if !hasClickListener {
        return;
      }
      var url := SelectUrl(checked, radios);
      if url.None? {
        LatestIgnoresOtherEffects(effects, [EmptySelectionToast]);
        effects := effects + [EmptySelectionToast];
        return;
      }
      LatestIgnoresOtherEffects(effects, [Enqueue(url.value), ButtonClicked]);
      Download(url.value, enqueuedId);
      effects := effects + [ButtonClicked];
      button.OnClicked();
    }

    /** The download-complete receiver. */
    method OnReceive(intent: Option<Intent>, downloads: map<int, DownloadRow>)
      requires Valid()
      modifies this`effects, this`pendingIntent
      ensures Valid()
      ensures ReceivedDownloadId(intent) !in downloads ==> effects == old(effects)
      ensures ReceivedDownloadId(intent) in downloads ==>
        effects == old(effects) + [Notify(Route(intent, downloads).value)]
      ensures pendingIntent == SharedExtrasAfter(old(pendingIntent), intent, downloads)
    {
      var id := ReceivedDownloadId(intent);
      if id in downloads {
        var row := downloads[id];
        SendNotification(LongToInt(id), row.status, row.title);
      }
    }

    /** sendNotification: posts notification `id`; its action's intent
        carries the DetailActivity Bundle, which replaces the extras of the
        PendingIntent all notifications share. */
    method SendNotification(id: int, status: int, fileName: string)
      modifies this`effects, this`pendingIntent
      ensures pendingIntent == Some(DetailScreen.GetBundle(id, status, fileName))
      ensures effects == old(effects) + [Notify(Notification(id, DetailScreen.GetBundle(id, status, fileName)))]
    {
      var extras := DetailScreen.GetBundle(id, status, fileName);
      pendingIntent := Some(extras);
      effects := effects + [Notify(Notification(id, extras))];
    }

    /** Tapping "show details" on any posted notification: the shared
        PendingIntent opens a detail screen with the extras of the most
        recent post, whichever notification was tapped. */
    method ShowDetails(tapped: Notification) returns (o: DetailScreen.Outcome)
      requires Valid() && Notify(tapped) in effects
      ensures o.Displayed?
      ensures o == DetailScreen.Open(LatestNotifiedExtras(effects))
    {
      PostedHasLatest(effects, Notify(tapped));
      o := DetailScreen.Open(pendingIntent);
    }
  }
}
