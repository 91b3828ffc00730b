/** Handler calls in sequence, as a client would make them. */
module Scenarios {

  import opened Common
  import opened Seqs
  import opened Store
  import opened Media
  import opened Videos
  import opened Subscriptions
  import opened Users

  /** A freshly published video is hidden from the listing until its owner
      toggles it, after which the plain listing shows it. */
  method PublishThenToggle(db: Database, me: Id, title: string, description: string,
                           videoUpload: Upload, thumbnailUpload: Upload, newId: Id, now: int)
    returns (published: Response<Video>, toggled: Response<Video>)
    requires db.Valid() && newId !in db.videos && ValidId(newId)
    requires title != "" && description != "" && HasUrl(videoUpload) && HasUrl(thumbnailUpload)
    modifies db`videos
    ensures db.Valid()
    ensures published.Ok? && published.value.id == newId
    ensures published.value !in Selected(old(db.videos)[newId := published.value], BuildMatch(None, None))
    ensures toggled.Ok? && toggled.value.isPublished
    ensures toggled.value in Selected(db.videos, BuildMatch(None, None))
  {
    published := PublishAVideo(db, me, Some(title), Some(description), true, true,
                               videoUpload, thumbnailUpload, newId, now);
    toggled := TogglePublishVideo(db, me, newId);
    assert db.videos[newId] == toggled.value;
  }

  /** Subscribing to the same channel twice: the second call is refused and
      the collection holds the pair once. */
  method SubscribeTwice(db: Database, me: Id, channelId: Id) returns (first: Response<()>, second: Response<()>)
    requires db.Valid() && ValidId(channelId) && channelId != me && channelId in db.users
    requires Subscription(me, channelId) !in db.subscriptions
    modifies db`subscriptions
    ensures db.Valid()
    ensures first.Ok?
    ensures second == Error(400, "You are already subscribed to this channel")
    ensures db.subscriptions == old(db.subscriptions) + [Subscription(me, channelId)]
  {
    CanonicalIdAccepted(channelId);
    first := SubscribeToChannel(db, me, channelId);
    second := SubscribeToChannel(db, me, channelId);
  }

  /** Registering the same username twice: the first call stores the user
      (201) and the second meets the conflict lookup (409). */
  method RegisterTwice(db: Database, fullname: string, email: string, username: string, password: string,
                       avatarUpload: Upload, id1: Id, id2: Id)
    returns (first: Response<Profile>, second: Response<Profile>)
    requires db.Valid() && id1 !in db.users && id2 !in db.users && id1 != id2
    requires !Blank(Some(fullname)) && !Blank(Some(email)) && !Blank(Some(username)) && !Blank(Some(password))
    requires avatarUpload.Uploaded? && avatarUpload.url != ""
    requires !Conflicts(db.users, username, email)
    modifies db`users
    ensures db.Valid()
    ensures first.Ok? && first.code == 201
    ensures second == Error(409, "User with email or username already exists")
  {
    ConflictsIsTaken(db.users, username, email);
    first := RegisterUser(db, Some(fullname), Some(email), Some(username), Some(password),
                          true, avatarUpload, false, NoResult, id1);
    var u := NewUser(id1, fullname, email, username, password, avatarUpload.url, "");
    SecondRegistrationConflicts(db.users, u, username, email);
    second := RegisterUser(db, Some(fullname), Some(email), Some(username), Some(password),
                           true, avatarUpload, false, NoResult, id2);
  }
}
