/** The tweet handlers (src/controllers/tweet.controllers.js). */
module Tweets {

  import opened Common
  import opened Seqs
  import opened Store

  /** `Tweet.find({owner})`: one user's tweets, in no particular order. */
  function TweetsBy(tweets: map<Id, Tweet>, owner: Id): (r: set<Tweet>)
    ensures forall t :: t in r <==> t in tweets.Values && t.owner == owner
  {
    set k | k in tweets && tweets[k].owner == owner :: tweets[k]
  }

  /** The creation time by which listings are ordered. */
  function TweetTime(t: Tweet): int {
    t.createdAt
  }

  /** createTweet: missing or blank content is refused (400); the new tweet
      keeps the content as sent (untrimmed) and belongs to the requester. */
  method CreateTweet(db: Database, me: Id, content: Option<string>, newId: Id, now: int)
    returns (r: Response<Tweet>)
    requires db.Valid() && newId !in db.tweets
    modifies db`tweets
    ensures db.Valid()
    ensures Blank(content) ==>
              r == Error(400, "Tweet content is required") && db.tweets == old(db.tweets)
    ensures !Blank(content) ==>
              && r == Ok(201, Tweet(newId, content.value, me, now))
              && db.tweets == old(db.tweets)[newId := r.value]
  {
    if Blank(content) {
      return Error(400, "Tweet content is required");
    }
    var tweet := Tweet(newId, content.value, me, now);
    db.tweets := db.tweets[newId := tweet];
    r := Ok(201, tweet);
  }

  /** getTweetsByUser: 400 for a malformed id; otherwise every tweet of that
      user, each once, newest first. */
  method GetTweetsByUser(db: Database, userId: Id) returns (r: Response<seq<Tweet>>)
    ensures !ValidId(userId) ==> r == Error(400, "Invalid user ID")
    ensures r.Ok? <==> ValidId(userId)
    ensures r.Ok? ==> && r.code == 200
                      && multiset(r.value) == multiset(TweetsBy(db.tweets, userId))
                      && NewestFirst(r.value, TweetTime)
  {
    if !ValidId(userId) {
      return Error(400, "Invalid user ID");
    }
    var listed := SortNewestFirst(TweetsBy(db.tweets, userId), TweetTime);
    r := Ok(200, listed);
  }

  /** getAllTweets: every tweet, each once, newest first. */
  method GetAllTweets(db: Database) returns (r: Response<seq<Tweet>>)
    ensures r.Ok? && r.code == 200
    ensures multiset(r.value) == multiset(db.tweets.Values)
    ensures NewestFirst(r.value, TweetTime)
  {
    var listed := SortNewestFirst(db.tweets.Values, TweetTime);
    r := Ok(200, listed);
  }

  /** deleteTweet: malformed id (400), missing tweet (404), not the owner
      (403); otherwise exactly that tweet is gone. */
  method DeleteTweet(db: Database, me: Id, tweetId: Id) returns (r: Response<()>)
    requires db.Valid()
    modifies db`tweets
    ensures db.Valid()
    ensures !ValidId(tweetId) ==> r == Error(400, "Invalid tweet ID")
    ensures ValidId(tweetId) && tweetId !in old(db.tweets) ==> r == Error(404, "Tweet not found")
    ensures ValidId(tweetId) && tweetId in old(db.tweets) && old(db.tweets)[tweetId].owner != me ==>
              r == Error(403, "You are not authorized to delete this tweet")
    ensures r.Error? ==> db.tweets == old(db.tweets)
    ensures r.Ok? <==> ValidId(tweetId) && tweetId in old(db.tweets) && old(db.tweets)[tweetId].owner == me
    ensures r.Ok? ==> r.code == 200 && db.tweets == old(db.tweets) - {tweetId}
  {
    if !ValidId(tweetId) {
      return Error(400, "Invalid tweet ID");
    }
    if tweetId !in db.tweets {
      return Error(404, "Tweet not found");
    }
    if db.tweets[tweetId].owner != me {
      return Error(403, "You are not authorized to delete this tweet");
    }
    db.tweets := db.tweets - {tweetId};
    r := Ok(200, ());
  }

  /** A new tweet shows up in its author's listing, and in no other user's. */
  lemma {:induction false} NewTweetListedForItsAuthorOnly(tweets: map<Id, Tweet>, t: Tweet, other: Id)
    requires t.id !in tweets && other != t.owner
    ensures TweetsBy(tweets[t.id := t], t.owner) == TweetsBy(tweets, t.owner) + {t}
    ensures TweetsBy(tweets[t.id := t], other) == TweetsBy(tweets, other)
  {
    var m := tweets[t.id := t];
    forall x | x in TweetsBy(m, t.owner) ensures x in TweetsBy(tweets, t.owner) + {t} {
      var k :| k in m && m[k] == x;
      if k != t.id {
        assert tweets[k] == x;
      }
    }
    forall x | x in TweetsBy(tweets, t.owner) ensures x in TweetsBy(m, t.owner) {
      var k :| k in tweets && tweets[k] == x;
      assert m[k] == x;
    }
    assert m[t.id] == t;
    forall x | x in TweetsBy(m, other) ensures x in TweetsBy(tweets, other) {
      var k :| k in m && m[k] == x;
      assert k != t.id;
      assert tweets[k] == x;
    }
    forall x | x in TweetsBy(tweets, other) ensures x in TweetsBy(m, other) {
      var k :| k in tweets && tweets[k] == x;
      assert m[k] == x;
    }
  }
}
