/** The notification side of client.go: what `runNotify` shows for each
    pushed event, what `runNotifyUnread` shows for the friends list, and the
    branches of `toastWithHeadImageKey`. The AES decryption of
    `cryptojs.AesDecrypt` is a parameter; whether an avatar file exists is too. */
module Notify {
  import opened Wrappers
  import Decimal
  import Events
  import Receive

  /** `cryptojs.AesDecrypt(ciphertext, key)`: the plaintext, or None on any error. */
  type Decryptor = (string, string) -> Option<string>

  /** A toast: title, text, and the avatar key when one goes with it. */
  datatype Notification = Notification(title: string, message: string, headImgFileKey: Option<int>)

  const KahlaSuffix := " [Kahla]"

  const FriendRequestTitle := "Friend request"
  const FriendRequestMessage := "You have got a new friend request!"
  const WereDeletedTitle := "Were deleted"
  const WereDeletedMessage := "You were deleted by one of your friends from his friend list."
  const FriendAcceptedMessage := "Your friend request was accepted!"

  // ---------------------------------------------------------------------------
  // runNotify
  // ---------------------------------------------------------------------------

  /** What `runNotify` does with one value from the event channel: hand a
      notification to `toastWithHeadImageKey` (messages) or `c.toast` (the
      fixed texts), which log it and pass it to SnoreToast only when one is
      configured; log a decryption error and show nothing; or panic. */
  datatype Reaction = Show(n: Notification) | LogDecryptError | Panic

  function React(v: Events.Value, decrypt: Decryptor): (r: Reaction)
    // only a value that is none of the four event structs reaches the panic
    ensures r.Panic? <==> v.BareEvent?
    // a new message is shown iff it decrypts, under the sender's name and avatar
    ensures v.NewMessageEvent? ==>
      var f := v.fields;
      match decrypt(f.content, f.aesKey)
      case None => r == LogDecryptError
      case Some(text) => r == Show(Notification(f.sender.nickName + KahlaSuffix, text, Some(f.sender.headImgFileKey)))
    // the other three events have fixed texts and no avatar
    ensures v.NewFriendRequestEvent? ==> r == Show(Notification(FriendRequestTitle, FriendRequestMessage, None))
    ensures v.WereDeletedEvent? ==> r == Show(Notification(WereDeletedTitle, WereDeletedMessage, None))
    ensures v.FriendAcceptedEvent? ==> r == Show(Notification(FriendRequestTitle, FriendAcceptedMessage, None))
  {
    match v
    case NewMessageEvent(_, f) =>
      (match decrypt(f.content, f.aesKey)
       case None => LogDecryptError
       case Some(text) => Show(Notification(f.sender.nickName + KahlaSuffix, text, Some(f.sender.headImgFileKey))))
    case NewFriendRequestEvent(_, _) => Show(Notification(FriendRequestTitle, FriendRequestMessage, None))
    case WereDeletedEvent(_) => Show(Notification(WereDeletedTitle, WereDeletedMessage, None))
    case FriendAcceptedEvent(_) => Show(Notification(FriendRequestTitle, FriendAcceptedMessage, None))
    case BareEvent(_) => Panic
  }

  /** What `runNotify` has shown after draining `values`, and whether it panicked. */
  datatype NotifyRun = NotifyRun(shown: seq<Notification>, panicked: bool)

  function RunNotify(values: seq<Events.Value>, decrypt: Decryptor): (r: NotifyRun)
    // every notification handed on comes from a value that reacts with it, never more than one per value
    ensures |r.shown| <= |values|
    ensures forall n :: n in r.shown ==> exists j :: 0 <= j < |values| && React(values[j], decrypt) == Show(n)
  {
    if |values| == 0 then NotifyRun([], false)
    else match React(values[0], decrypt)
      case Panic => NotifyRun([], true)
      case LogDecryptError =>
        var rest := RunNotify(values[1..], decrypt);
        assert forall n :: n in rest.shown ==> exists j :: 0 <= j < |values| && React(values[j], decrypt) == Show(n) by {
          forall n | n in rest.shown
            ensures exists j :: 0 <= j < |values| && React(values[j], decrypt) == Show(n)
          {
            var j :| 0 <= j < |values[1..]| && React(values[1..][j], decrypt) == Show(n);
            assert React(values[j + 1], decrypt) == Show(n);
          }
        }
        rest
      case Show(n) =>
        var rest := RunNotify(values[1..], decrypt);
        assert forall m :: m in rest.shown ==> exists j :: 0 <= j < |values| && React(values[j], decrypt) == Show(m) by {
          forall m | m in rest.shown
            ensures exists j :: 0 <= j < |values| && React(values[j], decrypt) == Show(m)
          {
            var j :| 0 <= j < |values[1..]| && React(values[1..][j], decrypt) == Show(m);
            assert React(values[j + 1], decrypt) == Show(m);
          }
        }
        NotifyRun([n] + rest.shown, rest.panicked)
  }

  /** `runNotify` panics exactly when some value is not one of the four event structs. */
  lemma {:induction false} PanicsIffBareValue(values: seq<Events.Value>, decrypt: Decryptor)
    ensures RunNotify(values, decrypt).panicked <==> exists j :: 0 <= j < |values| && values[j].BareEvent?
  {
    if |values| > 0 {
      PanicsIffBareValue(values[1..], decrypt);
      if exists j :: 0 <= j < |values[1..]| && values[1..][j].BareEvent? {
        var j :| 0 <= j < |values[1..]| && values[1..][j].BareEvent?;
        assert values[j + 1].BareEvent?;
      }
      if exists j :: 0 <= j < |values| && values[j].BareEvent? {
        var j :| 0 <= j < |values| && values[j].BareEvent?;
        if j > 0 { assert values[1..][j - 1].BareEvent?; }
      }
    }
  }

  /** The panic branch is dead code: whatever frames arrive, the read loop only
      feeds `runNotify` values it can handle. */
  lemma NeverPanicsOnDecodedEvents(rs: seq<Receive.ReadResult>, decrypt: Decryptor)
    ensures !RunNotify(Receive.RunReceiveMessage(rs).emitted, decrypt).panicked
  {
    var values := Receive.RunReceiveMessage(rs).emitted;
    Receive.EmittedAreWellTyped(rs);
    PanicsIffBareValue(values, decrypt);
  }

  /** When every message decrypts, each event is shown once, in the order it came. */
  lemma {:induction false} EveryEventShownInOrder(values: seq<Events.Value>, decrypt: Decryptor)
    requires forall j :: 0 <= j < |values| ==> React(values[j], decrypt).Show?
    ensures var r := RunNotify(values, decrypt);
      !r.panicked && |r.shown| == |values|
      && forall j :: 0 <= j < |values| ==> r.shown[j] == React(values[j], decrypt).n
  {
    if |values| > 0 {
      EveryEventShownInOrder(values[1..], decrypt);
    }
  }

  /** One value from the channel: a shown notification, a logged decryption
      error that shows nothing and goes on, or a panic. */
  lemma RunNotifyOne(v: Events.Value, decrypt: Decryptor)
    ensures RunNotify([v], decrypt) ==
      match React(v, decrypt)
      case Show(n) => NotifyRun([n], false)
      case LogDecryptError => NotifyRun([], false)
      case Panic => NotifyRun([], true)
  {
    assert [v][1..] == [];
  }

  /** Values are handled one after another: until a panic, the loop goes on past
      every value, a failed decryption included, and nothing after a panic is shown. */
  lemma {:induction false} RunNotifyAppend(a: seq<Events.Value>, b: seq<Events.Value>, decrypt: Decryptor)
    ensures !RunNotify(a, decrypt).panicked ==>
      RunNotify(a + b, decrypt) == NotifyRun(RunNotify(a, decrypt).shown + RunNotify(b, decrypt).shown, RunNotify(b, decrypt).panicked)
    ensures RunNotify(a, decrypt).panicked ==> RunNotify(a + b, decrypt) == RunNotify(a, decrypt)
  {
    if |a| == 0 {
      assert a + b == b;
    } else {
      assert (a + b)[0] == a[0];
      assert (a + b)[1..] == a[1..] + b;
      RunNotifyAppend(a[1..], b, decrypt);
    }
  }

  // ---------------------------------------------------------------------------
  // runNotifyUnread
  // ---------------------------------------------------------------------------

  /** The fields of a `MyFriends` item that `runNotifyUnread` reads. */
  datatype FriendItem = FriendItem(
    displayName: string,
    displayImageKey: int,
    latestMessage: string,
    unReadAmount: int,
    aesKey: string)

  const UnreadOpen := "["
  const UnreadClose := " unread] "

  /** `fmt.Sprintf("[%d unread] ", n) + name + " [Kahla]"`. */
  function UnreadTitle(amount: int, name: string): string {
    UnreadOpen + Decimal.FormatInt(amount) + UnreadClose + name + KahlaSuffix
  }

  /** The toast for one unread conversation; an undecryptable message is shown as received. */
  function UnreadNotification(item: FriendItem, decrypt: Decryptor): (n: Notification)
    ensures n.title == UnreadTitle(item.unReadAmount, item.displayName)
    ensures n.headImgFileKey == Some(item.displayImageKey)
    ensures n.message == decrypt(item.latestMessage, item.aesKey).GetOr(item.latestMessage)
  {
    var message := match decrypt(item.latestMessage, item.aesKey)
      case Some(text) => text
      case None => item.latestMessage;
    Notification(UnreadTitle(item.unReadAmount, item.displayName), message, Some(item.displayImageKey))
  }

  /** The toasts of `runNotifyUnread`, one per item with unread messages, in list order. */
  function RunNotifyUnread(items: seq<FriendItem>, decrypt: Decryptor): (r: seq<Notification>)
    ensures |r| <= |items|
    ensures forall n :: n in r ==> exists i :: i in items && i.unReadAmount > 0 && n == UnreadNotification(i, decrypt)
  {
    if |items| == 0 then []
    else
      var rest := RunNotifyUnread(items[1..], decrypt);
      if items[0].unReadAmount > 0 then [UnreadNotification(items[0], decrypt)] + rest else rest
  }

  /** Conversations are handled one after another: the toasts of a longer list extend those of its prefix. */
  lemma {:induction false} UnreadAppend(a: seq<FriendItem>, b: seq<FriendItem>, decrypt: Decryptor)
    ensures RunNotifyUnread(a + b, decrypt) == RunNotifyUnread(a, decrypt) + RunNotifyUnread(b, decrypt)
  {
    if |a| == 0 {
      assert a + b == b;
    } else {
      assert (a + b)[0] == a[0];
      assert (a + b)[1..] == a[1..] + b;
      UnreadAppend(a[1..], b, decrypt);
    }
  }

  /** A single item is toasted exactly when it has unread messages; with
      `UnreadAppend` this fixes the toasts of every list. */
  lemma UnreadOne(item: FriendItem, decrypt: Decryptor)
    ensures RunNotifyUnread([item], decrypt)
            == (if item.unReadAmount > 0 then [UnreadNotification(item, decrypt)] else [])
  {
    assert [item][1..] == [];
  }

  /** Items without unread messages are passed over silently. */
  lemma {:induction false} ReadConversationsSilent(items: seq<FriendItem>, decrypt: Decryptor)
    requires forall i :: i in items ==> i.unReadAmount <= 0
    ensures RunNotifyUnread(items, decrypt) == []
  {
    if |items| > 0 {
      assert items[0] in items;
      forall i | i in items[1..] ensures i.unReadAmount <= 0 { assert i in items; }
      ReadConversationsSilent(items[1..], decrypt);
    }
  }

  /** Reads the unread count and the friend's name back out of an unread title. */
  function ParseUnreadTitle(t: string): Option<(int, string)> {
    if |t| == 0 || t[0] != '[' then None
    else
      var k := Decimal.DigitRun(t[1..]);
      var rest := t[1 + k..];
      if k == 0 || |rest| < |UnreadClose| + |KahlaSuffix| then None
      else if rest[..|UnreadClose|] != UnreadClose then None
      else if rest[|rest| - |KahlaSuffix|..] != KahlaSuffix then None
      else
        assert t[1..1 + k] == t[1..][..k];
        Some((Decimal.DigitsValue(t[1..1 + k]) as int, rest[|UnreadClose|..|rest| - |KahlaSuffix|]))
  }

  /** An unread title names the count and the friend it was made from. */
  lemma UnreadTitleRoundTrip(amount: int, name: string)
    requires amount > 0
    ensures ParseUnreadTitle(UnreadTitle(amount, name)) == Some((amount, name))
  {
    var d := Decimal.NatDigits(amount);
    var t := UnreadTitle(amount, name);
    var tail := UnreadClose + name + KahlaSuffix;
    assert t == "[" + (d + tail);
    assert t[1..] == d + tail;
    Decimal.DigitRunOfDigitsThen(d, tail);
    assert t[1..1 + |d|] == d;
    assert t[1 + |d|..] == tail;
    Decimal.DigitsValueOfNatDigits(amount);
    assert tail[..|UnreadClose|] == UnreadClose;
    assert tail[|tail| - |KahlaSuffix|..] == KahlaSuffix;
    assert tail[|UnreadClose|..|tail| - |KahlaSuffix|] == name;
  }

  // ---------------------------------------------------------------------------
  // toastWithHeadImageKey
  // ---------------------------------------------------------------------------

  /** `path.Join(dir, file)` for a file name without separators. */
  function Join(dir: string, file: string): string {
    if dir == "" then file
    else if dir[|dir| - 1] == '/' then dir + file
    else dir + "/" + file
  }

  /** Where the avatar with this key is cached: `<AvatarsDir>/<key>.png`. */
  function AvatarPath(avatarsDir: string, key: int): string {
    Join(avatarsDir, Decimal.FormatInt(key) + ".png")
  }

  /** The last element of a slash-separated path. */
  function BaseName(p: string): (b: string)
    ensures '/' !in b
  {
    if |p| == 0 then ""
    else if p[|p| - 1] == '/' then ""
    else BaseName(p[..|p| - 1]) + [p[|p| - 1]]
  }

  /** The avatar key a cached file name stands for. */
  function AvatarKeyOfPath(p: string): Option<int> {
    var b := BaseName(p);
    if |b| >= 4 && b[|b| - 4..] == ".png" then Decimal.ParseInt(b[..|b| - 4]) else None
  }

  lemma {:induction false} BaseNameAfterSlash(prefix: string, file: string)
    requires prefix == "" || prefix[|prefix| - 1] == '/'
    requires '/' !in file
    ensures BaseName(prefix + file) == file
    decreases |file|
  {
    if |file| > 0 {
      var p := prefix + file;
      assert p[..|p| - 1] == prefix + file[..|file| - 1];
      assert p[|p| - 1] == file[|file| - 1];
      BaseNameAfterSlash(prefix, file[..|file| - 1]);
    } else {
      assert prefix + file == prefix;
    }
  }

  /** Joining keeps the file name as the last path element. */
  lemma BaseNameOfJoin(dir: string, file: string)
    requires '/' !in file
    ensures BaseName(Join(dir, file)) == file
  {
    if dir == "" {
      BaseNameAfterSlash("", file);
      assert "" + file == file;
    } else if dir[|dir| - 1] == '/' {
      BaseNameAfterSlash(dir, file);
    } else {
      BaseNameAfterSlash(dir + "/", file);
    }
  }

  /** A cached avatar's file name gives back its key, whatever the directory. */
  lemma AvatarPathRoundTrip(avatarsDir: string, key: int)
    ensures AvatarKeyOfPath(AvatarPath(avatarsDir, key)) == Some(key)
  {
    var d := Decimal.FormatInt(key);
    var file := d + ".png";
    assert '/' !in file by {
      assert forall i :: 0 <= i < |d| ==> d[i] == '-' || Decimal.IsDigit(d[i]);
      assert file[|d|..] == ".png";
    }
    BaseNameOfJoin(avatarsDir, file);
    assert file[..|file| - 4] == d;
    Decimal.ParseFormatInt(key);
  }

  /** What `toastWithHeadImageKey` sets in motion. Every branch also logs the title and message. */
  datatype ToastPlan =
    | LogOnly(title: string, message: string)                               // `c.toast` with no SnoreToast
    | PlainToast(title: string, message: string)                            // `c.toast` with SnoreToast: no image
    | ImageToast(title: string, message: string, imagePath: string)         // cached avatar
    | DownloadThenToast(title: string, message: string, imagePath: string)  // background download first

  /** `toastWithHeadImageKey`; `snoreToastConfigured` is `c.SnoreToast != nil`. */
  function ToastWithHeadImageKey(snoreToastConfigured: bool, avatarsDir: string, fileExists: string -> bool,
                                 title: string, message: string, key: int): (p: ToastPlan)
    ensures p.title == title && p.message == message
    // without SnoreToast the text is only logged, and no avatar is looked up or downloaded
    ensures !snoreToastConfigured <==> p.LogOnly?
    ensures snoreToastConfigured ==> p.ImageToast? || p.DownloadThenToast?
    ensures snoreToastConfigured ==> p.imagePath == AvatarPath(avatarsDir, key)
    ensures snoreToastConfigured ==> (p.ImageToast? <==> fileExists(AvatarPath(avatarsDir, key)))
  {
    if snoreToastConfigured then
      var path := AvatarPath(avatarsDir, key);
      if fileExists(path) then ImageToast(title, message, path) else DownloadThenToast(title, message, path)
    else LogOnly(title, message)
  }

  /** The toasts the background download then tries, given whether the
      download and the image toast succeed: a failure falls back to a plain toast. */
  function AfterDownload(plan: ToastPlan, downloadOk: bool, imageToastOk: bool): (r: seq<ToastPlan>)
    requires plan.DownloadThenToast?
    ensures |r| >= 1
    // every toast keeps the plan's text; the only image is the plan's avatar
    ensures forall t :: t in r ==> t.title == plan.title && t.message == plan.message
    ensures forall t :: t in r ==> t.PlainToast? || t == ImageToast(plan.title, plan.message, plan.imagePath)
    // one try, plus the fallback when the image toast itself fails
    ensures |r| == (if downloadOk && !imageToastOk then 2 else 1)
    ensures r[0].ImageToast? <==> downloadOk
    ensures r[|r| - 1].PlainToast? <==> !(downloadOk && imageToastOk)
    ensures downloadOk <==> ImageToast(plan.title, plan.message, plan.imagePath) in r
  {
    var image := ImageToast(plan.title, plan.message, plan.imagePath);
    var plain := PlainToast(plan.title, plan.message);
    if !downloadOk then [plain]
    else if imageToastOk then [image]
    else [image, plain]
  }
}
