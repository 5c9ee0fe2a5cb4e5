// Updates of finite maps that undo one another.
module Maps {
  lemma PutAgain<T>(m: map<string, T>, name: string, first: T, second: T)
    ensures m[name := first][name := second] == m[name := second]
  {
  }

  lemma PutAway<T>(m: map<string, T>, name: string, value: T)
    requires name !in m
    ensures m[name := value] - {name} == m
  {
  }

  lemma PutBack<T>(m: map<string, T>, name: string)
    requires name in m
    ensures m[name := m[name]] == m
    ensures (m - {name})[name := m[name]] == m
  {
  }

  lemma OthersKept<V>(m: map<string, V>, m': map<string, V>, name: string)
    requires m - {name} == m' - {name}
    ensures forall other :: other != name ==> (other in m <==> other in m')
    ensures forall other :: other != name && other in m && other in m' ==> m[other] == m'[other]
  {
    forall other | other != name
      ensures other in m <==> other in m'
      ensures other in m && other in m' ==> m[other] == m'[other]
    {
      assert other in m <==> other in m - {name};
      assert other in m' <==> other in m' - {name};
      if other in m && other in m' {
        assert m[other] == (m - {name})[other];
        assert m'[other] == (m' - {name})[other];
      }
    }
  }
}
