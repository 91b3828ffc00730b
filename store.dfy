/** The documents the handlers read and write, and the database that holds them:
    one collection per Mongoose model, kept in memory. */
module Store {

  import opened Common
  import opened Seqs

  /** A user account. `watchHistory` is the list of watched video ids that
      `$addToSet` maintains. */
  datatype User = User(id: Id, username: string, email: string, fullname: string,
                       avatar: string, coverImage: string, password: string,
                       watchHistory: seq<Id>)

  datatype Video = Video(id: Id, title: string, description: string, videoFile: string,
                         thumbnail: string, duration: int, views: nat, isPublished: bool,
                         owner: Id, createdAt: int)

  datatype Comment = Comment(id: Id, content: string, video: Id, owner: Id, createdAt: int)

  datatype Tweet = Tweet(id: Id, content: string, owner: Id, createdAt: int)

  datatype Playlist = Playlist(id: Id, name: string, description: string, owner: Id, videos: seq<Id>)

  /** Which of the three reference fields (`video`, `comment`, `tweet`) a Like sets. */
  datatype LikeKind = OnVideo | OnComment | OnTweet

  /** A Like: the user who liked, and the one field naming its target. */
  datatype Like = Like(kind: LikeKind, target: Id, likedBy: Id)

  datatype Subscription = Subscription(subscriber: Id, channel: Id)

  /** Users: stored under their own id, no username or email used twice (the
      schema's unique indexes), and a watch history without repeats. */
  predicate UsersOk(m: map<Id, User>) {
    && (forall k :: k in m ==> m[k].id == k && Distinct(m[k].watchHistory))
    && (forall k, k' :: k in m && k' in m && k != k' ==>
          m[k].username != m[k'].username && m[k].email != m[k'].email)
  }

  predicate VideosOk(m: map<Id, Video>) {
    forall k :: k in m ==> m[k].id == k
  }

  /** Comments: stored under their own id, content never the empty string. */
  predicate CommentsOk(m: map<Id, Comment>) {
    forall k :: k in m ==> m[k].id == k && m[k].content != ""
  }

  /** Tweets: stored under their own id, content never blank. */
  predicate TweetsOk(m: map<Id, Tweet>) {
    forall k :: k in m ==> m[k].id == k && Trim(m[k].content) != ""
  }

  /** Playlists: stored under their own id, no video listed twice. */
  predicate PlaylistsOk(m: map<Id, Playlist>) {
    forall k :: k in m ==> m[k].id == k && Distinct(m[k].videos)
  }

  /** At most one Like per (type, target, user). */
  predicate LikesOk(s: seq<Like>) {
    Distinct(s)
  }

  /** No self-subscription and no (subscriber, channel) pair twice. */
  predicate SubscriptionsOk(s: seq<Subscription>) {
    Distinct(s) && forall i :: 0 <= i < |s| ==> s[i].subscriber != s[i].channel
  }

  /** The database: one collection per model. */
  class Database {
    var users: map<Id, User>
    var videos: map<Id, Video>
    var comments: map<Id, Comment>
    var tweets: map<Id, Tweet>
    var playlists: map<Id, Playlist>
    var likes: seq<Like>
    var subscriptions: seq<Subscription>

    /** What sequential use of the handlers keeps true of every collection. */
    ghost predicate Valid()
      reads this
    {
      && UsersOk(users) && VideosOk(videos) && CommentsOk(comments) && TweetsOk(tweets)
      && PlaylistsOk(playlists) && LikesOk(likes) && SubscriptionsOk(subscriptions)
    }

    /** An empty database. */
    constructor ()
      ensures Valid()
      ensures users == map[] && videos == map[] && comments == map[] && tweets == map[]
      ensures playlists == map[] && likes == [] && subscriptions == []
    {
      users, videos, comments, tweets, playlists := map[], map[], map[], map[], map[];
      likes, subscriptions := [], [];
    }
  }
}
